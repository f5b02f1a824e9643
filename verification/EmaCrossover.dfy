/**
 The EMA crossover strategy: two exponential averages of completed-candle closes and a
 signal where their spread changes sign.
 */
module EmaCrossover {
  import opened Crossings
  import opened MarketData

  datatype Settings = Settings(
    symbol: string, interval: Interval, fastPeriod: int, slowPeriod: int, longOnly: bool,
    baseConfidence: real, sensitivity: real, maxConfidence: real)

  predicate ValidSettings(c: Settings) {
    && 2 <= c.fastPeriod < c.slowPeriod
    && 0.0 <= c.baseConfidence <= c.maxConfidence <= 1.0 && c.sensitivity > 0.0
  }

  datatype Intent = Intent(symbol: string, timestamp: int, direction: Direction, confidence: real)

  datatype State = State(
    fast: Option<real>, slow: Option<real>, previousSpread: Option<real>,
    completed: nat, lastEnd: Option<int>, pending: Option<Intent>)

  const INITIAL: State := State(None, None, None, 0, None, None)

  function Multiplier(period: int): real
    requires period >= 2
  {
    2.0 / (period + 1) as real
  }

  /** Move from `p` towards `x` by the share `m`. */
  function Towards(p: real, x: real, m: real): real {
    (x - p) * m + p
  }

  function NextEma(previous: Option<real>, close: real, period: int): real
    requires period >= 2
  {
    match previous
    case None => close
    case Some(p) => Towards(p, close, Multiplier(period))
  }

  function CrossDirection(previous: Option<real>, current: real, longOnly: bool): Option<Direction> {
    match previous
    case None => None
    case Some(p) =>
      if p <= 0.0 < current then Some(Buy)
      else if p >= 0.0 > current then Some(if longOnly then Exit else Sell)
      else None
  }

  /** Rounding to three places, halves up; only used for non-negative values. */
  function Thousandths(x: real): real {
    (x * 1000.0 + 0.5).Floor as real / 1000.0
  }

  function Confidence(c: Settings, close: real, spread: real): real
    requires close > 0.0
  {
    Thousandths(Min(c.baseConfidence + Separation(c, close, spread), c.maxConfidence))
  }

  function Separation(c: Settings, close: real, spread: real): real
    requires close > 0.0
  {
    Abs(spread) / close * c.sensitivity
  }

  /** Complete, of this series, and newer than the last candle used. */
  predicate Relevant(c: Settings, lastEnd: Option<int>, candle: Candle) {
    && candle.isComplete && candle.symbol == c.symbol && candle.interval == c.interval
    && (lastEnd.Some? ==> candle.bar.bucket.end > lastEnd.value)
  }

  function OnCandle(c: Settings, s: State, candle: Candle): State
    requires ValidSettings(c) && candle.bar.close > 0.0
  {
    if !Relevant(c, s.lastEnd, candle) then s.(pending := None)
    else
      var fast := NextEma(s.fast, candle.bar.close, c.fastPeriod);
      var slow := NextEma(s.slow, candle.bar.close, c.slowPeriod);
      var n := s.completed + 1;
      var end := candle.bar.bucket.end;
      var cross := if n <= c.slowPeriod then None else CrossDirection(s.previousSpread, fast - slow, c.longOnly);
      var intent := match cross
        case None => Intent(candle.symbol, end, Hold, c.baseConfidence)
        case Some(d) => Intent(candle.symbol, end, d, Confidence(c, candle.bar.close, fast - slow));
      State(Some(fast), Some(slow), Some(fast - slow), n, Some(end), Some(intent))
  }

  class EmaCrossoverStrategy {
    const settings: Settings
    var fastEma: Option<real>
    var slowEma: Option<real>
    var previousSpread: Option<real>
    var completedCandles: nat
    var lastCandleEnd: Option<int>
    var pendingIntent: Option<Intent>

    ghost function View(): State
      reads this
    {
      State(fastEma, slowEma, previousSpread, completedCandles, lastCandleEnd, pendingIntent)
    }

    constructor (settings: Settings)
      ensures this.settings == settings && View() == INITIAL
    {
      this.settings := settings;
      fastEma, slowEma, previousSpread := None, None, None;
      completedCandles, lastCandleEnd, pendingIntent := 0, None, None;
    }

    method Reset()
      modifies this
      ensures View() == INITIAL
    {
      fastEma, slowEma, previousSpread := None, None, None;
      completedCandles, lastCandleEnd, pendingIntent := 0, None, None;
    }

    method OnCandleEvent(candle: Candle)
      requires ValidSettings(settings) && candle.bar.close > 0.0
      modifies this
      ensures View() == OnCandle(settings, old(View()), candle)
    {
      pendingIntent := None;
      if !candle.isComplete || candle.symbol != settings.symbol || candle.interval != settings.interval
         || (lastCandleEnd.Some? && candle.bar.bucket.end <= lastCandleEnd.value)
      {
        return;
      }
      var fast := NextEma(fastEma, candle.bar.close, settings.fastPeriod);
      var slow := NextEma(slowEma, candle.bar.close, settings.slowPeriod);
      fastEma, slowEma := Some(fast), Some(slow);
      completedCandles := completedCandles + 1;
      lastCandleEnd := Some(candle.bar.bucket.end);
      var spread := fast - slow;
      if completedCandles <= settings.slowPeriod {
        previousSpread := Some(spread);
        pendingIntent := Some(Intent(candle.symbol, candle.bar.bucket.end, Hold, settings.baseConfidence));
        return;
      }
      var direction := CrossDirection(previousSpread, spread, settings.longOnly);
      previousSpread := Some(spread);
      if direction.None? {
        pendingIntent := Some(Intent(candle.symbol, candle.bar.bucket.end, Hold, settings.baseConfidence));
        return;
      }
      pendingIntent := Some(Intent(candle.symbol, candle.bar.bucket.end, direction.value,
                                   Confidence(settings, candle.bar.close, spread)));
    }

    method GenerateSignal() returns (intent: Option<Intent>)
      modifies this
      ensures intent == old(View()).pending && View() == old(View()).(pending := None)
    {
      intent, pendingIntent := pendingIntent, None;
    }
  }

  // ---------- runs: one `generate_signal` per candle ----------

  ghost predicate Positive(candles: seq<Candle>) {
    forall c <- candles :: c.bar.close > 0.0
  }

  function After(c: Settings, candles: seq<Candle>): State
    requires ValidSettings(c) && Positive(candles)
  {
    if candles == [] then INITIAL
    else OnCandle(c, After(c, candles[..|candles| - 1]), candles[|candles| - 1]).(pending := None)
  }

  /** The intents handed out, in order. */
  function Signals(c: Settings, candles: seq<Candle>): seq<Intent>
    requires ValidSettings(c) && Positive(candles)
  {
    if candles == [] then []
    else
      var before := candles[..|candles| - 1];
      var pending := OnCandle(c, After(c, before), candles[|candles| - 1]).pending;
      Signals(c, before) + (if pending.Some? then [pending.value] else [])
  }

  /** The candles the strategy uses. */
  function Used(c: Settings, candles: seq<Candle>): seq<Candle> {
    if candles == [] then []
    else
      var used := Used(c, candles[..|candles| - 1]);
      var lastEnd := if used == [] then None else Some(used[|used| - 1].bar.bucket.end);
      if Relevant(c, lastEnd, candles[|candles| - 1]) then used + [candles[|candles| - 1]] else used
  }

  function LastEnd(used: seq<Candle>): Option<int> {
    if used == [] then None else Some(used[|used| - 1].bar.bucket.end)
  }

  function Closes(candles: seq<Candle>): seq<real> {
    if candles == [] then [] else Closes(candles[..|candles| - 1]) + [candles[|candles| - 1].bar.close]
  }

  function Ema(closes: seq<real>, period: int): Option<real>
    requires period >= 2
  {
    if closes == [] then None
    else Some(NextEma(Ema(closes[..|closes| - 1], period), closes[|closes| - 1], period))
  }

  function Spread(c: Settings, closes: seq<real>): Option<real>
    requires ValidSettings(c)
  {
    if closes == [] then None
    else Some(Ema(closes, c.fastPeriod).value - Ema(closes, c.slowPeriod).value)
  }

  /** The direction signalled at the newest close, `None` for a hold. */
  function SignalAt(c: Settings, closes: seq<real>): Option<Direction>
    requires ValidSettings(c) && closes != []
  {
    if |closes| <= c.slowPeriod then None
    else CrossDirection(Spread(c, closes[..|closes| - 1]), Spread(c, closes).value, c.longOnly)
  }

  lemma {:induction false} UsedSubset(c: Settings, candles: seq<Candle>)
    ensures forall x <- Used(c, candles) :: x in candles
    ensures |Closes(Used(c, candles))| == |Used(c, candles)|
  {
    if candles != [] {
      var n := |candles| - 1;
      UsedSubset(c, candles[..n]);
      ClosesAppend(Used(c, candles[..n]), candles[n]);
    }
  }

  lemma ClosesAppend(candles: seq<Candle>, x: Candle)
    ensures Closes(candles + [x]) == Closes(candles) + [x.bar.close]
  {
    assert (candles + [x])[..|candles|] == candles;
  }

  lemma EmaAppend(closes: seq<real>, x: real, period: int)
    requires period >= 2
    ensures Ema(closes + [x], period) == Some(NextEma(Ema(closes, period), x, period))
  {
    assert (closes + [x])[..|closes|] == closes;
  }

  /** The state after using these candles. */
  function StateFor(c: Settings, used: seq<Candle>): State
    requires ValidSettings(c)
  {
    var closes := Closes(used);
    State(Ema(closes, c.fastPeriod), Ema(closes, c.slowPeriod), Spread(c, closes), |used|, LastEnd(used), None)
  }

  lemma StateStep(c: Settings, used: seq<Candle>, x: Candle)
    requires ValidSettings(c) && x.bar.close > 0.0
    ensures OnCandle(c, StateFor(c, used), x).(pending := None)
         == StateFor(c, if Relevant(c, LastEnd(used), x) then used + [x] else used)
  {
    if Relevant(c, LastEnd(used), x) {
      ClosesAppend(used, x);
      EmaAppend(Closes(used), x.bar.close, c.fastPeriod);
      EmaAppend(Closes(used), x.bar.close, c.slowPeriod);
    }
  }

  /** The state is a function of the closes of the used candles. */
  lemma {:induction false} StateOfUsed(c: Settings, candles: seq<Candle>)
    requires ValidSettings(c) && Positive(candles)
    ensures After(c, candles) == StateFor(c, Used(c, candles))
  {
    if candles != [] {
      StateOfUsed(c, candles[..|candles| - 1]);
      StateStep(c, Used(c, candles[..|candles| - 1]), candles[|candles| - 1]);
    }
  }

  /** What one more candle signals, in terms of the closes used so far. */
  lemma PendingIs(c: Settings, before: seq<Candle>, x: Candle)
    requires ValidSettings(c) && Positive(before) && x.bar.close > 0.0
    ensures var pending := OnCandle(c, After(c, before), x).pending; var used := Used(c, before);
            if Relevant(c, LastEnd(used), x) then
              var d := SignalAt(c, Closes(used) + [x.bar.close]);
              && pending.Some? && pending.value.symbol == c.symbol && pending.value.timestamp == x.bar.bucket.end
              && pending.value.direction == (if d.Some? then d.value else Hold)
            else pending == None
  {
    var used := Used(c, before);
    var closes := Closes(used);
    StateOfUsed(c, before);
    UsedSubset(c, before);
    EmaAppend(closes, x.bar.close, c.fastPeriod);
    EmaAppend(closes, x.bar.close, c.slowPeriod);
    assert (closes + [x.bar.close])[..|closes|] == closes;
  }

  /** Complete and of the configured series. */
  predicate OfSettings(c: Settings, x: Candle) {
    x.isComplete && x.symbol == c.symbol && x.interval == c.interval
  }

  ghost predicate EndsAfterAll(c: Settings, candles: seq<Candle>, end: int) {
    forall y <- candles :: OfSettings(c, y) ==> y.bar.bucket.end < end
  }

  /** The last end used is the latest among all complete candles of the series. */
  lemma {:induction false} LastEndIsLatest(c: Settings, candles: seq<Candle>, end: int)
    ensures var last := LastEnd(Used(c, candles)); EndsAfterAll(c, candles, end) <==> (last.Some? ==> last.value < end)
  {
    if candles != [] {
      var before, x := candles[..|candles| - 1], candles[|candles| - 1];
      assert before + [x] == candles;
      LastEndIsLatest(c, before, end);
      LastEndIsLatest(c, before, x.bar.bucket.end);
      assert EndsAfterAll(c, candles, end) <==>
             EndsAfterAll(c, before, end) && (OfSettings(c, x) ==> x.bar.bucket.end < end);
    }
  }

  /**
   A candle is used exactly when it is complete, of the configured symbol and interval, and ends after
   every earlier candle that is, used or not.
  */
  lemma UsedExactly(c: Settings, candles: seq<Candle>, x: Candle)
    ensures Used(c, candles + [x]) ==
            if OfSettings(c, x) && EndsAfterAll(c, candles, x.bar.bucket.end) then Used(c, candles) + [x]
            else Used(c, candles)
  {
    assert (candles + [x])[..|candles|] == candles;
    LastEndIsLatest(c, candles, x.bar.bucket.end);
  }

  lemma {:induction false} UsedAgain(c: Settings, candles: seq<Candle>)
    ensures Used(c, Used(c, candles)) == Used(c, candles)
  {
    if candles != [] {
      var used, x := Used(c, candles[..|candles| - 1]), candles[|candles| - 1];
      UsedAgain(c, candles[..|candles| - 1]);
      if Relevant(c, LastEnd(used), x) {
        assert (used + [x])[..|used|] == used;
      }
    }
  }

  lemma SignalsAppend(c: Settings, candles: seq<Candle>, x: Candle)
    requires ValidSettings(c) && Positive(candles + [x])
    ensures Positive(candles) && x.bar.close > 0.0
    ensures Signals(c, candles + [x]) ==
            var pending := OnCandle(c, After(c, candles), x).pending;
            Signals(c, candles) + (if pending.Some? then [pending.value] else [])
  {
    assert (candles + [x])[..|candles|] == candles;
    assert x in candles + [x];
    assert forall y <- candles :: y in candles + [x];
  }

  /**
   In-progress, foreign and stale candles leave the emitted signals unchanged wherever they are
   inserted: the signals are those of the used candles alone.
  */
  lemma {:induction false} IgnoredCandlesDoNotMatter(c: Settings, candles: seq<Candle>)
    requires ValidSettings(c) && Positive(candles)
    ensures Positive(Used(c, candles)) && Signals(c, candles) == Signals(c, Used(c, candles))
  {
    UsedSubset(c, candles);
    if candles != [] {
      var before, x := candles[..|candles| - 1], candles[|candles| - 1];
      var used := Used(c, before);
      assert x in candles && forall y <- before :: y in candles;
      IgnoredCandlesDoNotMatter(c, before);
      PendingIs(c, before, x);
      if Relevant(c, LastEnd(used), x) {
        SignalsAppend(c, used, x);
        StateOfUsed(c, before);
        StateOfUsed(c, used);
        UsedAgain(c, before);
      }
    }
  }

  function DirectionOf(d: Option<Direction>): Direction {
    if d.Some? then d.value else Hold
  }

  /** One intent per used candle, stamped with its end, whose direction follows from the closes so far. */
  ghost predicate FollowCloses(c: Settings, signals: seq<Intent>, used: seq<Candle>)
    requires ValidSettings(c)
  {
    var closes := Closes(used);
    && |signals| == |used| == |closes|
    && (forall k :: 0 <= k < |used| ==> signals[k].timestamp == used[k].bar.bucket.end)
    && (forall k :: 0 <= k < |used| ==> DirectionAt(c, closes, k, signals[k].direction))
  }

  ghost predicate DirectionAt(c: Settings, closes: seq<real>, k: int, d: Direction)
    requires ValidSettings(c) && 0 <= k < |closes|
  {
    d == DirectionOf(SignalUpTo(c, closes, k + 1))
  }

  lemma DirectionOfPrefix(c: Settings, closes: seq<real>, x: real, k: int, d: Direction)
    requires ValidSettings(c) && 0 <= k < |closes| && DirectionAt(c, closes, k, d)
    ensures DirectionAt(c, closes + [x], k, d)
  {
    assert (closes + [x])[..k + 1] == closes[..k + 1];
  }

  lemma DirectionOfNewest(c: Settings, closes: seq<real>, x: real, d: Direction)
    requires ValidSettings(c) && d == DirectionOf(SignalAt(c, closes + [x]))
    ensures DirectionAt(c, closes + [x], |closes|, d)
  {
    assert (closes + [x])[..|closes| + 1] == closes + [x];
  }

  lemma FollowAppend(c: Settings, signals: seq<Intent>, used: seq<Candle>, x: Candle, i: Intent)
    requires ValidSettings(c) && FollowCloses(c, signals, used) && i.timestamp == x.bar.bucket.end
    requires i.direction == DirectionOf(SignalAt(c, Closes(used) + [x.bar.close]))
    ensures FollowCloses(c, signals + [i], used + [x])
  {
    ClosesAppend(used, x);
    var closes := Closes(used);
    DirectionOfNewest(c, closes, x.bar.close, i.direction);
    forall k | 0 <= k < |used| ensures DirectionAt(c, closes + [x.bar.close], k, signals[k].direction) {
      DirectionOfPrefix(c, closes, x.bar.close, k, signals[k].direction);
    }
  }

  lemma {:induction false} SignalsFollowCloses(c: Settings, candles: seq<Candle>)
    requires ValidSettings(c) && Positive(candles)
    ensures FollowCloses(c, Signals(c, candles), Used(c, candles))
  {
    if candles != [] {
      var before, x := candles[..|candles| - 1], candles[|candles| - 1];
      SignalsFollowCloses(c, before);
      PendingIs(c, before, x);
      if Relevant(c, LastEnd(Used(c, before)), x) {
        FollowAppend(c, Signals(c, before), Used(c, before), x, OnCandle(c, After(c, before), x).pending.value);
      }
    }
  }

  /** A hold carries the base confidence, a side the one of its own close and spread. */
  ghost predicate ConfidenceAt(c: Settings, closes: seq<real>, k: int, i: Intent)
    requires ValidSettings(c) && 0 <= k < |closes| && closes[k] > 0.0
  {
    i.confidence ==
    if i.direction == Hold then c.baseConfidence else Confidence(c, closes[k], SpreadUpTo(c, closes, k + 1))
  }

  lemma PendingConfidence(c: Settings, before: seq<Candle>, x: Candle)
    requires ValidSettings(c) && Positive(before) && x.bar.close > 0.0 && Relevant(c, LastEnd(Used(c, before)), x)
    ensures var pending := OnCandle(c, After(c, before), x).pending;
            var closes := Closes(Used(c, before) + [x]);
            && closes != [] && closes[|closes| - 1] == x.bar.close && pending.Some?
            && ConfidenceAt(c, closes, |closes| - 1, pending.value)
  {
    var used, close := Used(c, before), x.bar.close;
    var closes := Closes(used);
    StateOfUsed(c, before);
    ClosesAppend(used, x);
    EmaAppend(closes, close, c.fastPeriod);
    EmaAppend(closes, close, c.slowPeriod);
    assert (closes + [close])[..|closes| + 1] == closes + [close];
  }

  ghost predicate ConfidencesFollow(c: Settings, signals: seq<Intent>, closes: seq<real>)
    requires ValidSettings(c)
  {
    && |signals| == |closes|
    && (forall k :: 0 <= k < |closes| ==> closes[k] > 0.0)
    && (forall k :: 0 <= k < |closes| ==> ConfidenceAt(c, closes, k, signals[k]))
  }

  lemma ConfidencesAppend(c: Settings, signals: seq<Intent>, closes: seq<real>, close: real, i: Intent)
    requires ValidSettings(c) && ConfidencesFollow(c, signals, closes) && close > 0.0
    requires ConfidenceAt(c, closes + [close], |closes|, i)
    ensures ConfidencesFollow(c, signals + [i], closes + [close])
  {
    var more := closes + [close];
    forall k | 0 <= k < |closes| ensures ConfidenceAt(c, more, k, signals[k]) {
      assert ConfidenceAt(c, closes, k, signals[k]) && more[..k + 1] == closes[..k + 1];
    }
  }

  lemma ConfidenceStep(c: Settings, before: seq<Candle>, x: Candle, signals: seq<Intent>)
    requires ValidSettings(c) && Positive(before) && x.bar.close > 0.0 && Relevant(c, LastEnd(Used(c, before)), x)
    requires ConfidencesFollow(c, signals, Closes(Used(c, before)))
    ensures var pending := OnCandle(c, After(c, before), x).pending;
            pending.Some? && ConfidencesFollow(c, signals + [pending.value], Closes(Used(c, before) + [x]))
  {
    PendingConfidence(c, before, x);
    ClosesAppend(Used(c, before), x);
    ConfidencesAppend(c, signals, Closes(Used(c, before)), x.bar.close, OnCandle(c, After(c, before), x).pending.value);
  }

  /** Over every run the confidence of each signal is that of its own close and spread. */
  lemma {:induction false} ConfidenceFollows(c: Settings, candles: seq<Candle>)
    requires ValidSettings(c) && Positive(candles)
    ensures ConfidencesFollow(c, Signals(c, candles), Closes(Used(c, candles)))
  {
    if candles != [] {
      var before, x := candles[..|candles| - 1], candles[|candles| - 1];
      ConfidenceFollows(c, before);
      PendingIs(c, before, x);
      if Relevant(c, LastEnd(Used(c, before)), x) {
        ConfidenceStep(c, before, x, Signals(c, before));
      }
    }
  }

  lemma ThousandthsNear(x: real)
    ensures -0.0005 < Thousandths(x) - x <= 0.0005
  {}

  lemma ShareTimes(c: Settings, close: real, spread: real, separation: real)
    requires close > 0.0 && separation * close == Abs(spread) * c.sensitivity
    ensures Separation(c, close, spread) == separation
  {
    SameQuotient(Abs(spread), close, c.sensitivity, separation);
  }

  lemma SameQuotient(a: real, close: real, k: real, b: real)
    requires close > 0.0 && b * close == a * k
    ensures a / close * k == b
  {
    var share := a / close;
    assert share * close == a;
    var d := share * k - b;
    assert d * close == 0.0 by { assert share * k * close == share * close * k; }
    assert d == 0.0;
  }

  /**
   Rounded to three places, the confidence is the base plus the relative separation of the averages,
   weighed with the sensitivity and cut at the maximum.
  */
  lemma ConfidenceIs(c: Settings, close: real, spread: real, separation: real)
    requires close > 0.0 && separation * close == Abs(spread) * c.sensitivity
    ensures var cut := if c.baseConfidence + separation <= c.maxConfidence then c.baseConfidence + separation
                       else c.maxConfidence;
            -0.0005 < Confidence(c, close, spread) - cut <= 0.0005
  {
    ShareTimes(c, close, spread, separation);
    ThousandthsNear(Min(c.baseConfidence + separation, c.maxConfidence));
  }

  lemma MixByPeriod(p: real, x: real, n: real, m: real)
    requires n > 0.0 && m == 2.0 / n
    ensures n * Towards(p, x, m) == 2.0 * x + (n - 2.0) * p
  {
    assert n * m == 2.0;
    assert n * ((x - p) * m) == (x - p) * (n * m);
  }

  /** Each average starts at the first close and weighs every later one by two parts in `period + 1`. */
  lemma EmaStep(closes: seq<real>, x: real, period: int)
    requires period >= 2
    ensures Ema([x], period) == Some(x)
    ensures closes != [] ==>
              && Ema(closes, period).Some? && Ema(closes + [x], period).Some?
              && (period + 1) as real * Ema(closes + [x], period).value
                 == 2.0 * x + (period - 1) as real * Ema(closes, period).value
  {
    assert [x][..0] == [];
    EmaAppend(closes, x, period);
    if closes != [] {
      var n := (period + 1) as real;
      MixByPeriod(Ema(closes, period).value, x, n, Multiplier(period));
      assert (period - 1) as real == n - 2.0;
    }
  }

  lemma ThousandthsMonotone(x: real, y: real)
    requires x <= y
    ensures Thousandths(x) <= Thousandths(y)
  {
    assert (x * 1000.0 + 0.5).Floor <= (y * 1000.0 + 0.5).Floor;
  }

  lemma ThousandthsEnds()
    ensures Thousandths(0.0) == 0.0 && Thousandths(1.0) == 1.0
  {}

  /** A signal's confidence stays between the rounded base and the rounded maximum, hence within [0, 1]. */
  lemma ConfidenceInRange(c: Settings, close: real, spread: real)
    requires ValidSettings(c) && close > 0.0
    ensures 0.0 <= Thousandths(c.baseConfidence) <= Confidence(c, close, spread) <= Thousandths(c.maxConfidence) <= 1.0
  {
    SeparationNonNegative(c, close, spread);
    RoundedBetween(c, Min(c.baseConfidence + Separation(c, close, spread), c.maxConfidence));
  }

  lemma SeparationNonNegative(c: Settings, close: real, spread: real)
    requires c.sensitivity > 0.0 && close > 0.0
    ensures Separation(c, close, spread) >= 0.0
  {
    var share := Abs(spread) / close;
    assert share >= 0.0;
    ScaleOrder(0.0, share, c.sensitivity);
    ZeroScale(c.sensitivity);
  }

  lemma RoundedBetween(c: Settings, raw: real)
    requires ValidSettings(c) && c.baseConfidence <= raw <= c.maxConfidence
    ensures 0.0 <= Thousandths(c.baseConfidence) <= Thousandths(raw) <= Thousandths(c.maxConfidence) <= 1.0
  {
    ThousandthsEnds();
    ThousandthsMonotone(0.0, c.baseConfidence);
    ThousandthsMonotone(c.baseConfidence, raw);
    ThousandthsMonotone(raw, c.maxConfidence);
    ThousandthsMonotone(c.maxConfidence, 1.0);
  }

  // ---------- the averages stay inside the closes ----------

  ghost predicate Between(closes: seq<real>, low: real, high: real) {
    forall x <- closes :: low <= x <= high
  }

  lemma MultiplierBounds(period: int)
    requires period >= 2
    ensures 0.0 < Multiplier(period) <= 2.0 / 3.0
  {
    assert (period + 1) as real >= 3.0;
  }

  lemma ScaleOrder(u: real, v: real, k: real)
    requires u <= v && 0.0 <= k
    ensures u * k <= v * k && k * u <= k * v
  {
    assert (v - u) * k >= 0.0;
  }

  lemma ZeroScale(k: real)
    ensures 0.0 * k == 0.0
  {}

  lemma TowardsSelf(v: real, m: real)
    ensures Towards(v, v, m) == v
  {
    ZeroScale(m);
  }

  lemma TowardsAsMix(p: real, x: real, m: real, rest: real)
    requires m + rest == 1.0
    ensures Towards(p, x, m) == x * m + p * rest
    ensures Towards(p, x, m) == x - (x - p) * rest
  {
    assert p * rest == p - p * m;
    assert (x - p) * rest == (x - p) - (x - p) * m;
  }

  lemma BlendAbove(p: real, x: real, m: real, low: real)
    requires 0.0 <= m <= 1.0 && low <= p && low <= x
    ensures low <= Towards(p, x, m)
  {
    var rest := 1.0 - m;
    TowardsAsMix(p, x, m, rest);
    TowardsAsMix(low, low, m, rest);
    TowardsSelf(low, m);
    ScaleOrder(low, x, m);
    ScaleOrder(low, p, rest);
  }

  lemma TowardsMirrors(p: real, x: real, m: real)
    ensures Towards(-p, -x, m) == -Towards(p, x, m)
  {}

  lemma Blend(p: real, x: real, m: real, low: real, high: real)
    requires 0.0 <= m <= 1.0 && low <= p <= high && low <= x <= high
    ensures low <= Towards(p, x, m) <= high
  {
    BlendAbove(p, x, m, low);
    BlendAbove(-p, -x, m, -high);
    TowardsMirrors(p, x, m);
  }

  /** Each average lies between the lowest and highest close seen. */
  lemma {:induction false} EmaInRange(closes: seq<real>, period: int, low: real, high: real)
    requires period >= 2 && closes != [] && Between(closes, low, high)
    ensures low <= Ema(closes, period).value <= high
  {
    var before, x := closes[..|closes| - 1], closes[|closes| - 1];
    assert x in closes && forall y <- before :: y in closes;
    if before != [] {
      EmaInRange(before, period, low, high);
      MultiplierBounds(period);
      Blend(Ema(before, period).value, x, Multiplier(period), low, high);
    }
  }

  // ---------- monotone prices give one-sided signals ----------

  ghost predicate NeverFalls(closes: seq<real>) {
    forall j, k :: 0 <= j <= k < |closes| ==> closes[j] <= closes[k]
  }

  ghost predicate NeverRises(closes: seq<real>) {
    forall j, k :: 0 <= j <= k < |closes| ==> closes[j] >= closes[k]
  }

  lemma MultiplierOrder(c: Settings)
    requires ValidSettings(c)
    ensures 0.0 < Multiplier(c.slowPeriod) < Multiplier(c.fastPeriod) < 1.0
  {
    MultiplierBounds(c.fastPeriod);
    var f, s := (c.fastPeriod + 1) as real, (c.slowPeriod + 1) as real;
    assert f < s;
    assert 2.0 / s < 2.0 / f;
  }

  lemma ShrinkOrder(u: real, v: real, ra: real, rb: real)
    requires 0.0 <= u <= v && 0.0 <= ra <= rb
    ensures 0.0 <= u * ra <= v * rb
  {
    ScaleOrder(0.0, u, ra);
    ZeroScale(ra);
    ScaleOrder(ra, rb, u);
    ScaleOrder(u, v, rb);
  }

  /** The fast average leads towards the newest close. */
  lemma LeadStep(f: real, s: real, x: real, a: real, b: real)
    requires 0.0 < b < a < 1.0 && s <= f <= x
    ensures Towards(s, x, b) <= Towards(f, x, a) <= x
  {
    TowardsAsMix(f, x, a, 1.0 - a);
    TowardsAsMix(s, x, b, 1.0 - b);
    ShrinkOrder(x - f, x - s, 1.0 - a, 1.0 - b);
  }

  /** Both averages after one more close, by their multipliers. */
  lemma TwoSteps(c: Settings, before: seq<real>, x: real) returns (a: real, b: real)
    requires ValidSettings(c) && before != []
    ensures 0.0 < b < a < 1.0
    ensures var f := Ema(before, c.fastPeriod).value; Ema(before + [x], c.fastPeriod) == Some(Towards(f, x, a))
    ensures var s := Ema(before, c.slowPeriod).value; Ema(before + [x], c.slowPeriod) == Some(Towards(s, x, b))
  {
    a, b := Multiplier(c.fastPeriod), Multiplier(c.slowPeriod);
    MultiplierOrder(c);
    EmaAppend(before, x, c.fastPeriod);
    EmaAppend(before, x, c.slowPeriod);
  }

  lemma RisingStep(c: Settings, before: seq<real>, x: real)
    requires ValidSettings(c) && before != []
    requires Ema(before, c.slowPeriod).value <= Ema(before, c.fastPeriod).value <= x
    ensures Ema(before + [x], c.slowPeriod).value <= Ema(before + [x], c.fastPeriod).value <= x
  {
    var a, b := TwoSteps(c, before, x);
    LeadStep(Ema(before, c.fastPeriod).value, Ema(before, c.slowPeriod).value, x, a, b);
  }

  lemma {:induction false} RisingOrder(c: Settings, closes: seq<real>)
    requires ValidSettings(c) && closes != [] && NeverFalls(closes)
    ensures Ema(closes, c.slowPeriod).value <= Ema(closes, c.fastPeriod).value <= closes[|closes| - 1]
  {
    var n := |closes| - 1;
    if n > 0 {
      RisingOrder(c, closes[..n]);
      assert closes[n - 1] <= closes[n];
      RisingStep(c, closes[..n], closes[n]);
      assert closes[..n] + [closes[n]] == closes;
    }
  }

  lemma NegatedAppend(closes: seq<real>, x: real)
    ensures Negated(closes + [x]) == Negated(closes) + [-x]
  {}

  /** The averages are odd in the prices, so falling markets mirror rising ones. */
  lemma {:induction false} EmaMirrors(closes: seq<real>, period: int)
    requires period >= 2 && closes != []
    ensures Negated(closes) != [] && Ema(Negated(closes), period).value == -Ema(closes, period).value
  {
    var before, x := closes[..|closes| - 1], closes[|closes| - 1];
    assert before + [x] == closes;
    NegatedAppend(before, x);
    EmaAppend(Negated(before), -x, period);
    EmaAppend(before, x, period);
    if before != [] {
      EmaMirrors(before, period);
      TowardsMirrors(Ema(before, period).value, x, Multiplier(period));
    }
  }

  lemma FallingOrder(c: Settings, closes: seq<real>)
    requires ValidSettings(c) && closes != [] && NeverRises(closes)
    ensures closes[|closes| - 1] <= Ema(closes, c.fastPeriod).value <= Ema(closes, c.slowPeriod).value
  {
    RisingOrder(c, Negated(closes));
    EmaMirrors(closes, c.fastPeriod);
    EmaMirrors(closes, c.slowPeriod);
  }

  /** If closes never fall no EXIT or SELL is ever signalled; if they never rise no BUY is. */
  lemma MonotonePricesSignalOneSide(c: Settings, closes: seq<real>)
    requires ValidSettings(c) && closes != []
    ensures NeverFalls(closes) ==> SignalAt(c, closes) in {None, Some(Buy)}
    ensures NeverRises(closes) ==> SignalAt(c, closes) in {None, Some(Exit), Some(Sell)}
  {
    if NeverFalls(closes) { RisingOrder(c, closes); }
    if NeverRises(closes) { FallingOrder(c, closes); }
  }

  // ---------- order of signals ----------

  function SpreadUpTo(c: Settings, closes: seq<real>, n: nat): real
    requires ValidSettings(c) && 0 < n <= |closes|
  {
    Spread(c, closes[..n]).value
  }

  function SignalUpTo(c: Settings, closes: seq<real>, n: nat): Option<Direction>
    requires ValidSettings(c) && 0 < n <= |closes|
  {
    SignalAt(c, closes[..n])
  }

  /** The signal after `n` closes, in terms of the two newest spreads. */
  lemma SignalBySpreads(c: Settings, closes: seq<real>, n: nat)
    requires ValidSettings(c) && 0 < n <= |closes|
    ensures SignalUpTo(c, closes, n) ==
            if n <= c.slowPeriod then None
            else CrossDirection(Some(SpreadUpTo(c, closes, n - 1)), SpreadUpTo(c, closes, n), c.longOnly)
  {
    assert closes[..n][..n - 1] == closes[..n - 1];
  }

  lemma {:induction false} FirstNotAbove(c: Settings, closes: seq<real>, i: nat, j: nat) returns (m: nat)
    requires ValidSettings(c) && 0 < i < j <= |closes|
    requires SpreadUpTo(c, closes, i) > 0.0 >= SpreadUpTo(c, closes, j)
    ensures i < m <= j && SpreadUpTo(c, closes, m - 1) > 0.0 >= SpreadUpTo(c, closes, m)
    decreases j - i
  {
    if SpreadUpTo(c, closes, i + 1) <= 0.0 {
      m := i + 1;
    } else {
      m := FirstNotAbove(c, closes, i + 1, j);
    }
  }

  lemma {:induction false} FirstNotBelow(c: Settings, closes: seq<real>, i: nat, j: nat) returns (m: nat)
    requires ValidSettings(c) && 0 < i < j <= |closes|
    requires SpreadUpTo(c, closes, i) < 0.0 <= SpreadUpTo(c, closes, j)
    ensures i < m <= j && SpreadUpTo(c, closes, m - 1) < 0.0 <= SpreadUpTo(c, closes, m)
    decreases j - i
  {
    if SpreadUpTo(c, closes, i + 1) >= 0.0 {
      m := i + 1;
    } else {
      m := FirstNotBelow(c, closes, i + 1, j);
    }
  }

  /** Between two BUYs lies an EXIT (or SELL), or a spread of exactly zero. */
  lemma BetweenBuys(c: Settings, closes: seq<real>, i: nat, j: nat) returns (m: nat)
    requires ValidSettings(c) && 0 < i < j <= |closes|
    requires SignalUpTo(c, closes, i) == Some(Buy) && SignalUpTo(c, closes, j) == Some(Buy)
    ensures i < m < j && SpreadUpTo(c, closes, m) <= 0.0
    ensures SpreadUpTo(c, closes, m) == 0.0 || SignalUpTo(c, closes, m) == Some(if c.longOnly then Exit else Sell)
  {
    SignalBySpreads(c, closes, i);
    SignalBySpreads(c, closes, j);
    m := FirstNotAbove(c, closes, i, j - 1);
    SignalBySpreads(c, closes, m);
  }

  lemma BetweenExits(c: Settings, closes: seq<real>, i: nat, j: nat) returns (m: nat)
    requires ValidSettings(c) && 0 < i < j <= |closes|
    requires SignalUpTo(c, closes, i) == SignalUpTo(c, closes, j) == Some(if c.longOnly then Exit else Sell)
    ensures i < m < j && SpreadUpTo(c, closes, m) >= 0.0
    ensures SpreadUpTo(c, closes, m) == 0.0 || SignalUpTo(c, closes, m) == Some(Buy)
  {
    SignalBySpreads(c, closes, i);
    SignalBySpreads(c, closes, j);
    m := FirstNotBelow(c, closes, i, j - 1);
    SignalBySpreads(c, closes, m);
  }

  /** The spread after each number of closes; the entry before the first close is never read. */
  function Spreads(c: Settings, closes: seq<real>): (d: seq<real>)
    requires ValidSettings(c)
    ensures |d| == |closes| + 1 && forall n :: 0 < n <= |closes| ==> d[n] == SpreadUpTo(c, closes, n)
  {
    seq(|closes| + 1, n requires 0 <= n <= |closes| => if n == 0 then 0.0 else SpreadUpTo(c, closes, n))
  }

  function Opposite(c: Settings): Direction {
    if c.longOnly then Exit else Sell
  }

  /** Signals are the rises and falls of the spread. */
  lemma SignalsAreCrossings(c: Settings, closes: seq<real>, n: nat)
    requires ValidSettings(c) && 0 < n <= |closes|
    ensures SignalUpTo(c, closes, n) == Some(Buy) <==> Rises(Spreads(c, closes), c.slowPeriod, n)
    ensures SignalUpTo(c, closes, n) == Some(Opposite(c)) <==> Falls(Spreads(c, closes), c.slowPeriod, n)
    ensures SignalUpTo(c, closes, n) in {None, Some(Buy), Some(Opposite(c))}
    ensures Falls(Spreads(c, closes), c.slowPeriod, n) <==> Rises(Negated(Spreads(c, closes)), c.slowPeriod, n)
    ensures Rises(Spreads(c, closes), c.slowPeriod, n) <==> Falls(Negated(Spreads(c, closes)), c.slowPeriod, n)
  {
    SignalBySpreads(c, closes, n);
  }

  /** Between two equal signals there is always the opposite one. */
  ghost predicate Alternates(c: Settings, closes: seq<real>)
    requires ValidSettings(c)
  {
    forall i, j :: 0 < i < j <= |closes| && SameSignal(c, closes, i, j) ==> Interrupted(c, closes, i, j)
  }

  predicate SameSignal(c: Settings, closes: seq<real>, i: nat, j: nat)
    requires ValidSettings(c) && 0 < i < j <= |closes|
  {
    SignalUpTo(c, closes, i).Some? && SignalUpTo(c, closes, i) == SignalUpTo(c, closes, j)
  }

  ghost predicate Interrupted(c: Settings, closes: seq<real>, i: nat, j: nat)
    requires ValidSettings(c) && 0 < i < j <= |closes|
  {
    exists m :: i < m < j && SignalUpTo(c, closes, m).Some? && SignalUpTo(c, closes, m) != SignalUpTo(c, closes, i)
  }

  /** Two signals of direction `e` with no opposite one between are two crossings of `d` without one back. */
  lemma UninterruptedIsTwice(c: Settings, closes: seq<real>, d: seq<real>, i: nat, j: nat, e: Direction)
    requires ValidSettings(c) && 0 < i < j <= |closes| && |d| == |closes| + 1
    requires SignalUpTo(c, closes, i) == SignalUpTo(c, closes, j) == Some(e) && !Interrupted(c, closes, i, j)
    requires forall n :: 0 < n <= |closes| ==> (SignalUpTo(c, closes, n) == Some(e) <==> Rises(d, c.slowPeriod, n))
    requires forall n :: 0 < n <= |closes| && Falls(d, c.slowPeriod, n) ==>
                           SignalUpTo(c, closes, n).Some? && SignalUpTo(c, closes, n) != Some(e)
    ensures RisesTwice(d, c.slowPeriod)
  {
    assert RisesAgain(d, c.slowPeriod, i, j);
  }

  lemma TwiceIsUninterrupted(c: Settings, closes: seq<real>, d: seq<real>, e: Direction)
    requires ValidSettings(c) && |d| == |closes| + 1 && RisesTwice(d, c.slowPeriod)
    requires forall n :: 0 < n <= |closes| ==> (SignalUpTo(c, closes, n) == Some(e) <==> Rises(d, c.slowPeriod, n))
    requires forall n :: 0 < n <= |closes| && SignalUpTo(c, closes, n).Some? && SignalUpTo(c, closes, n) != Some(e) ==>
                           Falls(d, c.slowPeriod, n)
    ensures !Alternates(c, closes)
  {
    var i, j :| RisesAgain(d, c.slowPeriod, i, j);
    assert SameSignal(c, closes, i, j) && !Interrupted(c, closes, i, j);
  }

  /**
   BUY and EXIT (or SELL) strictly alternate exactly when the spread never touches zero and returns
   to the side it came from: no stretch of zeros after the warm-up has a positive spread on both
   sides, with a crossing before it, and none has a negative spread on both sides.
  */
  lemma SignalsAlternate(c: Settings, closes: seq<real>)
    requires ValidSettings(c)
    ensures Alternates(c, closes) <==>
              !TouchesFromAbove(Spreads(c, closes), c.slowPeriod)
              && !TouchesFromAbove(Negated(Spreads(c, closes)), c.slowPeriod)
  {
    var d, opposite := Spreads(c, closes), Opposite(c);
    forall n | 0 < n <= |closes|
      ensures SignalUpTo(c, closes, n) == Some(Buy) <==> Rises(d, c.slowPeriod, n)
      ensures SignalUpTo(c, closes, n) == Some(opposite) <==> Falls(d, c.slowPeriod, n)
      ensures SignalUpTo(c, closes, n) in {None, Some(Buy), Some(opposite)}
      ensures Falls(d, c.slowPeriod, n) <==> Rises(Negated(d), c.slowPeriod, n)
      ensures Rises(d, c.slowPeriod, n) <==> Falls(Negated(d), c.slowPeriod, n)
    {
      SignalsAreCrossings(c, closes, n);
    }
    RisesTwiceExactly(d, c.slowPeriod);
    RisesTwiceExactly(Negated(d), c.slowPeriod);
    if RisesTwice(d, c.slowPeriod) { TwiceIsUninterrupted(c, closes, d, Buy); }
    if RisesTwice(Negated(d), c.slowPeriod) { TwiceIsUninterrupted(c, closes, Negated(d), opposite); }
    if !Alternates(c, closes) {
      var i, j :| 0 < i < j <= |closes| && SameSignal(c, closes, i, j) && !Interrupted(c, closes, i, j);
      if SignalUpTo(c, closes, i) == Some(Buy) {
        UninterruptedIsTwice(c, closes, d, i, j, Buy);
      } else {
        UninterruptedIsTwice(c, closes, Negated(d), i, j, opposite);
      }
    }
  }

  /** In particular they alternate when no spread from the last warm-up candle on is zero. */
  lemma NoZeroAlternates(c: Settings, closes: seq<real>)
    requires ValidSettings(c)
    requires forall n :: c.slowPeriod <= n <= |closes| ==> SpreadUpTo(c, closes, n) != 0.0
    ensures Alternates(c, closes)
  {
    var d := Spreads(c, closes);
    SignalsAlternate(c, closes);
    forall q, p, j ensures !Touch(d, c.slowPeriod, q, p, j) && !Touch(Negated(d), c.slowPeriod, q, p, j) {
      if c.slowPeriod <= q < p < j - 1 && j < |d| {
        assert d[p + 1] == SpreadUpTo(c, closes, p + 1) != 0.0;
        assert Negated(d)[p + 1] == -d[p + 1];
      }
    }
  }

  /** Of any emitted run: no direction before candle `slow_period + 1`, only holds. */
  lemma QuietWarmUp(c: Settings, candles: seq<Candle>, k: nat)
    requires ValidSettings(c) && Positive(candles) && k < |Signals(c, candles)| && k < c.slowPeriod
    ensures Signals(c, candles)[k].direction == Hold
  {
    SignalsFollowCloses(c, candles);
    var closes := Closes(Used(c, candles));
    assert DirectionAt(c, closes, k, Signals(c, candles)[k].direction);
    SignalBySpreads(c, closes, k + 1);
  }

  lemma SmallPeriods(p: real, x: real)
    ensures NextEma(Some(p), x, 2) == p + (x - p) * 2.0 / 3.0
    ensures NextEma(Some(p), x, 3) == p + (x - p) / 2.0
  {}

  ghost predicate EmasAt(closes: seq<real>, n: nat, f: real, s: real) {
    n <= |closes| && Ema(closes[..n], 2) == Some(f) && Ema(closes[..n], 3) == Some(s)
  }

  lemma FirstEmas(closes: seq<real>)
    requires closes != []
    ensures EmasAt(closes, 1, closes[0], closes[0])
  {
    assert closes[..1] == [] + [closes[0]];
    EmaAppend([], closes[0], 2);
    EmaAppend([], closes[0], 3);
  }

  lemma NextEmas(closes: seq<real>, n: nat, f: real, s: real, f': real, s': real)
    requires n < |closes| && EmasAt(closes, n, f, s)
    requires f' == f + (closes[n] - f) * 2.0 / 3.0 && s' == s + (closes[n] - s) / 2.0
    ensures EmasAt(closes, n + 1, f', s')
  {
    assert closes[..n] + [closes[n]] == closes[..n + 1];
    EmaAppend(closes[..n], closes[n], 2);
    EmaAppend(closes[..n], closes[n], 3);
    SmallPeriods(f, closes[n]);
    SmallPeriods(s, closes[n]);
  }

  lemma SpreadIs(c: Settings, closes: seq<real>, n: nat, f: real, s: real)
    requires ValidSettings(c) && c.fastPeriod == 2 && c.slowPeriod == 3 && 0 < n && EmasAt(closes, n, f, s)
    ensures SpreadUpTo(c, closes, n) == f - s
  {}

  lemma FirstFour(closes: seq<real>)
    requires |closes| == 6 && closes[0] == closes[1] == closes[2] == 1.0 && closes[3] == 7.0
    ensures EmasAt(closes, 3, 1.0, 1.0) && EmasAt(closes, 4, 5.0, 4.0)
  {
    FirstEmas(closes);
    NextEmas(closes, 1, 1.0, 1.0, 1.0, 1.0);
    NextEmas(closes, 2, 1.0, 1.0, 1.0, 1.0);
    NextEmas(closes, 3, 1.0, 1.0, 5.0, 4.0);
  }

  lemma LastTwo(closes: seq<real>)
    requires |closes| == 6 && EmasAt(closes, 4, 5.0, 4.0) && closes[4] == 2.0 && closes[5] == 9.0
    ensures EmasAt(closes, 5, 3.0, 3.0) && EmasAt(closes, 6, 7.0, 6.0)
  {
    NextEmas(closes, 4, 5.0, 4.0, 3.0, 3.0);
    NextEmas(closes, 5, 3.0, 3.0, 7.0, 6.0);
  }

  /** Periods 2 and 3 over the closes 1, 1, 1, 7, 2, 9: BUY, a zero spread, BUY, and no EXIT between. */
  lemma BuyZeroBuy(c: Settings, closes: seq<real>)
    requires ValidSettings(c) && c.fastPeriod == 2 && c.slowPeriod == 3
    requires |closes| == 6 && closes[0] == closes[1] == closes[2] == 1.0
    requires closes[3] == 7.0 && closes[4] == 2.0 && closes[5] == 9.0
    ensures SignalUpTo(c, closes, 4) == Some(Buy) && SignalUpTo(c, closes, 5) == None
    ensures SignalUpTo(c, closes, 6) == Some(Buy) && SpreadUpTo(c, closes, 5) == 0.0
  {
    FirstFour(closes);
    LastTwo(closes);
    CrossingsAt(c, closes, 4, 1.0, 1.0, 5.0, 4.0);
    CrossingsAt(c, closes, 5, 5.0, 4.0, 3.0, 3.0);
    CrossingsAt(c, closes, 6, 3.0, 3.0, 7.0, 6.0);
  }

  lemma CrossingsAt(c: Settings, closes: seq<real>, n: nat, f: real, s: real, f': real, s': real)
    requires ValidSettings(c) && c.fastPeriod == 2 && c.slowPeriod == 3
    requires 3 < n <= |closes| && EmasAt(closes, n - 1, f, s) && EmasAt(closes, n, f', s')
    ensures SpreadUpTo(c, closes, n) == f' - s'
    ensures SignalUpTo(c, closes, n) == CrossDirection(Some(f - s), f' - s', c.longOnly)
  {
    SpreadIs(c, closes, n - 1, f, s);
    SpreadIs(c, closes, n, f', s');
    SignalBySpreads(c, closes, n);
  }
}
