/**
 The market-event path: filter a tick, advance the candles, and evaluate the strategy of the
 symbol on every completed candle with the average true range known at that moment.
 Specification over values; the class is in TradingOrchestrator.
 */
module Orchestrator {
  import opened MarketData
  import opened CandleEngine
  import opened CandleAggregation
  import opened AtrTracker
  import Ema = EmaCrossover
  import BarGrouping
  import CandleHistory
  import Filter = TickProcessor

  /** One strategy per symbol, as the container builds them, and the period of the average. */
  datatype Setup = Setup(strategies: map<string, Ema.Settings>, atrPeriod: nat)

  ghost predicate ValidSetup(u: Setup) {
    && u.atrPeriod > 0
    && (forall s <- u.strategies :: Ema.ValidSettings(u.strategies[s]) && u.strategies[s].symbol == s)
  }

  /** What the orchestrator does with an intent that is not a hold. */
  datatype Action =
    | CloseOut(intent: Ema.Intent)
    | NotReady(intent: Ema.Intent)
    | AskRisk(intent: Ema.Intent, entryPrice: real, atr: real)

  datatype Evaluation = Evaluation(candle: Candle, atr: Option<real>, action: Option<Action>)

  function ActionFor(pending: Option<Ema.Intent>, c: Candle, atr: Option<real>): Option<Action> {
    if pending.None? || pending.value.direction == Hold then None
    else if pending.value.direction == Exit then Some(CloseOut(pending.value))
    else if atr.None? then Some(NotReady(pending.value))
    else Some(AskRisk(pending.value, c.bar.close, atr.value))
  }

  /** The candles a strategy engine is given: those of its symbol, whatever their interval. */
  function Dispatched(log: seq<Candle>, symbol: string): seq<Candle> {
    if log == [] then []
    else Dispatched(log[..|log| - 1], symbol) + (if log[|log| - 1].symbol == symbol then [log[|log| - 1]] else [])
  }

  lemma {:induction false} DispatchedPositive(log: seq<Candle>, symbol: string)
    requires Ema.Positive(log)
    ensures Ema.Positive(Dispatched(log, symbol))
  {
    if log != [] {
      var n := |log| - 1;
      assert forall c <- log[..n] :: c in log;
      assert log[n] in log;
      DispatchedPositive(log[..n], symbol);
    }
  }

  ghost function Evaluate(u: Setup, log: seq<Candle>, c: Candle): Evaluation
    requires ValidSetup(u) && Ema.Positive(log) && c.bar.close > 0.0
  {
    var atr := Atr(BarsOf(log + [c], KeyOf(c)), u.atrPeriod);
    if c.symbol !in u.strategies then Evaluation(c, atr, None)
    else
      DispatchedPositive(log, c.symbol);
      var settings := u.strategies[c.symbol];
      var pending := Ema.OnCandle(settings, Ema.After(settings, Dispatched(log, c.symbol)), c).pending;
      Evaluation(c, atr, ActionFor(pending, c, atr))
  }

  /** One evaluation per completed candle, each after the candles before it. */
  ghost function EvaluateAll(u: Setup, log: seq<Candle>, completed: seq<Candle>): (r: seq<Evaluation>)
    requires ValidSetup(u) && Ema.Positive(log) && Ema.Positive(completed)
    ensures |r| == |completed|
  {
    if completed == [] then []
    else
      var n := |completed| - 1;
      assert completed[n] in completed;
      assert forall c <- completed[..n] :: c in completed;
      EvaluateAll(u, log, completed[..n]) + [Evaluate(u, log + completed[..n], completed[n])]
  }

  // ---------- prices stay positive ----------

  ghost predicate PositiveBars(active: map<Key, Bar>) {
    forall k <- active :: active[k].close > 0.0
  }

  lemma {:induction false} AdvanceAllPositive(cal: BucketLookup, active: map<Key, Bar>, t: Tick,
      intervals: seq<Interval>)
    requires PositiveBars(active) && t.price > 0.0
    ensures var p := AdvanceAll(cal, active, t, intervals); PositiveBars(p.active) && Ema.Positive(p.completed)
  {
    if intervals != [] {
      AdvanceAllPositive(cal, active, t, intervals[..|intervals| - 1]);
    }
  }

  // ---------- the run ----------

  datatype Config = Config(cal: BucketLookup, intervals: seq<Interval>, reject: bool)

  /** `log` holds the candles completed since the strategies were last replaced. */
  datatype State = State(setup: Setup, filter: Filter.State, engine: EngineState, log: seq<Candle>)

  datatype Input = Receive(tick: Tick) | Reconfigure(setup: Setup)

  ghost predicate ValidInput(i: Input) {
    match i
    case Receive(t) => t.price > 0.0
    case Reconfigure(u) => ValidSetup(u)
  }

  ghost predicate Good(s: State) {
    ValidSetup(s.setup) && PositiveBars(s.engine.active) && Ema.Positive(s.log)
  }

  ghost function ProcessTick(c: Config, s: State, t: Tick): (r: (State, seq<Evaluation>))
    requires Good(s) && t.price > 0.0
    ensures Good(r.0)
  {
    var (filter, accepted) := Filter.ProcessSpec(c.reject, s.filter, t);
    if !accepted then (s.(filter := filter), [])
    else
      AdvanceAllPositive(c.cal, s.engine.active, t, c.intervals);
      var (engine, update) := ProcessTickSpec(c.cal, c.intervals, s.engine, t);
      (State(s.setup, filter, engine, s.log + update.completed), EvaluateAll(s.setup, s.log, update.completed))
  }

  ghost function Step(c: Config, s: State, i: Input): (r: State)
    requires Good(s) && ValidInput(i)
    ensures Good(r)
  {
    match i
    case Receive(t) => ProcessTick(c, s, t).0
    case Reconfigure(u) => State(u, s.filter, s.engine, [])
  }

  ghost predicate ValidInputs(inputs: seq<Input>) {
    forall i <- inputs :: ValidInput(i)
  }

  ghost function After(c: Config, u: Setup, inputs: seq<Input>): (r: State)
    requires ValidSetup(u) && ValidInputs(inputs)
    ensures Good(r)
  {
    if inputs == [] then State(u, Filter.State(map[], []), EngineState(map[], map[]), [])
    else
      var n := |inputs| - 1;
      assert inputs[n] in inputs;
      assert forall i <- inputs[..n] :: i in inputs;
      Step(c, After(c, u, inputs[..n]), inputs[n])
  }

  // ---------- completed candles of a run ----------

  /** Every candle completed by these ticks, in the order the engine emits them. */
  function AllCompleted(c: Config, ticks: seq<Tick>): seq<Candle> {
    if ticks == [] then []
    else
      var before := ticks[..|ticks| - 1];
      AllCompleted(c, before)
      + ProcessTickSpec(c.cal, c.intervals, Run(c.cal, c.intervals, Arrivals(before)), ticks[|ticks| - 1]).1.completed
  }

  lemma {:induction false} CompletedPerSeries(c: Config, ticks: seq<Tick>, key: Key)
    ensures BarsOf(AllCompleted(c, ticks), key) == Completed(c.cal, c.intervals, Arrivals(ticks), key)
  {
    if ticks != [] {
      var before, t := ticks[..|ticks| - 1], ticks[|ticks| - 1];
      CompletedPerSeries(c, before, key);
      var more := ProcessTickSpec(c.cal, c.intervals, Run(c.cal, c.intervals, Arrivals(before)), t).1.completed;
      BarsOfConcat(AllCompleted(c, before), more, key);
      assert Arrivals(ticks)[..|Arrivals(before)|] == Arrivals(before);
    }
  }

  // ---------- completed candles lie behind the newest tick, in order ----------

  ghost predicate EndsIncrease(bars: seq<Bar>) {
    forall j, k :: 0 <= j < k < |bars| ==> bars[j].bucket.end < bars[k].bucket.end
  }

  ghost predicate EndBy(bars: seq<Bar>, time: int) {
    forall b <- bars :: b.bucket.end <= time
  }

  lemma BarIsHit(cal: BucketLookup, i: Interval, p: seq<BarGrouping.Placed>, bars: seq<Bar>, b: Bar, latest: int)
    requires PlacedBy(cal, i, p, latest) && BarGrouping.BucketsOf(bars) == BarGrouping.BucketsHit(p) && b in bars
    ensures b.bucket.start <= latest && b.bucket.start < b.bucket.end
  {
    assert b.bucket in BarGrouping.BucketsOf(bars);
    var x :| x in p && x.bucket == b.bucket;
  }

  /** All but the last bar of a grouping end, in order, before the newest tick. */
  lemma EarlierBarsEnd(cal: BucketLookup, i: Interval, p: seq<BarGrouping.Placed>, bars: seq<Bar>, last: Bar,
      latest: int)
    requires PlacedBy(cal, i, p, latest) && BarGrouping.IsGrouping(p, bars + [last])
    ensures EndsIncrease(bars) && EndBy(bars, latest)
  {
    var all := bars + [last];
    BarIsHit(cal, i, p, all, last, latest);
    assert all[|bars|] == last && forall k :: 0 <= k < |bars| ==> all[k] == bars[k];
    forall b <- bars ensures b.bucket.end <= latest {
      assert b.bucket.end <= last.bucket.start;
    }
    forall j, k | 0 <= j < k < |bars| ensures bars[j].bucket.end < bars[k].bucket.end {
      BarIsHit(cal, i, p, all, all[k], latest);
      assert all[j].bucket.end <= all[k].bucket.start;
    }
  }

  lemma CompletedBehind(c: Config, ticks: seq<Tick>, key: Key)
    requires Distinct(c.intervals) && key.interval in c.intervals
    ensures var bars := Completed(c.cal, c.intervals, Arrivals(ticks), key);
            var kept := Filter.EngineKeeps(key.symbol, ticks);
            EndsIncrease(bars) && (bars != [] ==> kept != [] && EndBy(bars, kept[|kept| - 1].timestamp))
  {
    var events := Arrivals(ticks);
    var kept := Filter.EngineKeeps(key.symbol, ticks);
    var s := SeriesRun(c.cal, key, events);
    Filter.ArrivalsOnly(ticks);
    Separable(c.cal, c.intervals, events, key);
    CandleHistory.TicksAlone(c.cal, key, events);
    Filter.TickRunGroups(c.cal, c.intervals, ticks, key);
    if s.done != [] {
      var p := Place(c.cal, key.interval, kept);
      InOrderChronological(key.symbol, events);
      assert BarGrouping.Group(p) != [];
      PlaceCorrect(c.cal, key.interval, kept, kept[|kept| - 1].timestamp);
      PlacedWell(c.cal, key.interval, p, kept[|kept| - 1].timestamp);
      BarGrouping.GroupCorrect(p);
      EarlierBarsEnd(c.cal, key.interval, p, s.done, s.active.value, kept[|kept| - 1].timestamp);
    }
  }

  // ---------- the state of a run ----------

  function Received(inputs: seq<Input>): seq<Tick> {
    if inputs == [] then []
    else
      var before := Received(inputs[..|inputs| - 1]);
      match inputs[|inputs| - 1]
      case Receive(t) => before + [t]
      case Reconfigure(_) => before
  }

  predicate IsSuffix<T(==)>(a: seq<T>, b: seq<T>) {
    |a| <= |b| && a == b[|b| - |a|..]
  }

  ghost predicate Explains(c: Config, s: State) {
    && s.engine == Run(c.cal, c.intervals, Arrivals(s.filter.kept))
    && IsSuffix(s.log, AllCompleted(c, s.filter.kept))
  }

  lemma SuffixAppend<T>(a: seq<T>, b: seq<T>, more: seq<T>)
    requires IsSuffix(a, b)
    ensures IsSuffix(a + more, b + more)
  {
    assert b == b[..|b| - |a|] + a;
    assert b + more == b[..|b| - |a|] + (a + more);
  }

  /** One accepted tick, seen from the ticks accepted before it. */
  lemma OneMoreTick(c: Config, kept: seq<Tick>, t: Tick)
    ensures var (engine, update) := ProcessTickSpec(c.cal, c.intervals, Run(c.cal, c.intervals, Arrivals(kept)), t);
            && Run(c.cal, c.intervals, Arrivals(kept + [t])) == engine
            && AllCompleted(c, kept + [t]) == AllCompleted(c, kept) + update.completed
  {
    ArrivalsAppend(kept, t);
    assert (kept + [t])[..|kept|] == kept;
    assert (Arrivals(kept) + [Arrive(t)])[..|Arrivals(kept)|] == Arrivals(kept);
  }

  lemma ExplainsTick(c: Config, engine: EngineState, log: seq<Candle>, kept: seq<Tick>, t: Tick)
    requires engine == Run(c.cal, c.intervals, Arrivals(kept)) && IsSuffix(log, AllCompleted(c, kept))
    ensures var (engine', update) := ProcessTickSpec(c.cal, c.intervals, engine, t);
            engine' == Run(c.cal, c.intervals, Arrivals(kept + [t]))
              && IsSuffix(log + update.completed, AllCompleted(c, kept + [t]))
  {
    OneMoreTick(c, kept, t);
    SuffixAppend(log, AllCompleted(c, kept), ProcessTickSpec(c.cal, c.intervals, engine, t).1.completed);
  }

  lemma NothingIsSuffix<T>(s: seq<T>)
    ensures IsSuffix([], s)
  {}

  lemma ExplainsStep(c: Config, s: State, i: Input)
    requires Good(s) && ValidInput(i) && Explains(c, s)
    ensures Explains(c, Step(c, s, i))
  {
    match i
    case Reconfigure(u) => NothingIsSuffix(AllCompleted(c, s.filter.kept));
    case Receive(t) => ExplainsTick(c, s.engine, s.log, s.filter.kept, t);
  }

  lemma FilterStep(c: Config, s: State, i: Input, received: seq<Tick>)
    requires Good(s) && ValidInput(i) && s.filter == Filter.Processed(c.reject, received)
    ensures Step(c, s, i).filter == Filter.Processed(c.reject, if i.Receive? then received + [i.tick] else received)
  {
    if i.Receive? { assert (received + [i.tick])[..|received|] == received; }
  }

  lemma AfterStep(c: Config, u: Setup, inputs: seq<Input>)
    requires ValidSetup(u) && ValidInputs(inputs) && inputs != []
    ensures var (before, i) := (inputs[..|inputs| - 1], inputs[|inputs| - 1]);
            && ValidInputs(before) && ValidInput(i)
            && After(c, u, inputs) == Step(c, After(c, u, before), i)
            && Received(inputs) == if i.Receive? then Received(before) + [i.tick] else Received(before)
  {
    assert inputs[|inputs| - 1] in inputs;
    assert forall i <- inputs[..|inputs| - 1] :: i in inputs;
  }

  /** The filter, the engine and the log of any run, from the ticks received. */
  lemma {:induction false} RunExplained(c: Config, u: Setup, inputs: seq<Input>)
    requires ValidSetup(u) && ValidInputs(inputs)
    ensures Explains(c, After(c, u, inputs))
    ensures After(c, u, inputs).filter == Filter.Processed(c.reject, Received(inputs))
  {
    if inputs != [] {
      var before, i := inputs[..|inputs| - 1], inputs[|inputs| - 1];
      AfterStep(c, u, inputs);
      RunExplained(c, u, before);
      ExplainsStep(c, After(c, u, before), i);
      FilterStep(c, After(c, u, before), i, Received(before));
    }
  }

  // ---------- no look-ahead ----------

  lemma {:induction false} CompletedShape(cal: BucketLookup, active: map<Key, Bar>, t: Tick, intervals: seq<Interval>)
    ensures forall x <- AdvanceAll(cal, active, t, intervals).completed ::
              x.symbol == t.symbol && x.interval in intervals && x.isComplete
  {
    if intervals != [] {
      CompletedShape(cal, active, t, intervals[..|intervals| - 1]);
      assert forall i <- intervals[..|intervals| - 1] :: i in intervals;
      assert intervals[|intervals| - 1] in intervals;
    }
  }

  /** A tick the engine does not drop becomes the newest one it keeps. */
  lemma NewestIsTick(c: Config, kept: seq<Tick>, t: Tick, i: Interval)
    requires Distinct(c.intervals) && i in c.intervals && !Late(Run(c.cal, c.intervals, Arrivals(kept)).watermark, t)
    ensures Filter.EngineKeeps(t.symbol, kept + [t]) == Filter.EngineKeeps(t.symbol, kept) + [t]
  {
    var key := Key(t.symbol, i);
    Separable(c.cal, c.intervals, Arrivals(kept), key);
    MarkIsLatest(c.cal, key, Arrivals(kept));
    Filter.EngineKeepsAppend(t.symbol, kept, t);
  }

  lemma SuffixBars(a: seq<Candle>, b: seq<Candle>, key: Key, latest: int)
    requires IsSuffix(a, b) && EndsIncrease(BarsOf(b, key)) && EndBy(BarsOf(b, key), latest)
    ensures EndsIncrease(BarsOf(a, key)) && EndBy(BarsOf(a, key), latest)
  {
    var front := b[..|b| - |a|];
    assert b == front + a;
    BarsOfConcat(front, a, key);
    TailEnds(BarsOf(front, key), BarsOf(a, key), latest);
  }

  lemma TailEnds(front: seq<Bar>, bars: seq<Bar>, latest: int)
    requires EndsIncrease(front + bars) && EndBy(front + bars, latest)
    ensures EndsIncrease(bars) && EndBy(bars, latest)
  {
    var all := front + bars;
    assert forall k :: 0 <= k < |bars| ==> all[|front| + k] == bars[k];
    assert forall b <- bars :: b in all;
  }

  lemma HeadEnds(bars: seq<Bar>, last: Bar, rest: seq<Bar>, latest: int)
    requires EndsIncrease(bars + [last] + rest) && EndBy(bars + [last] + rest, latest)
    ensures EndBy(bars + [last], last.bucket.end) && last.bucket.end <= latest && EndsIncrease(bars + [last])
  {
    var all, head := bars + [last] + rest, bars + [last];
    assert forall k :: 0 <= k < |head| ==> all[k] == head[k];
    assert all[|bars|] == last && last in all;
    forall b <- head ensures b.bucket.end <= last.bucket.end {
      var k :| 0 <= k < |head| && head[k] == b;
      assert all[k] == b;
    }
  }

  /** The log after an accepted tick ends, per series, no later than that tick. */
  lemma LogBehindTick(c: Config, s: State, t: Tick, i: Interval)
    requires Distinct(c.intervals) && i in c.intervals && Explains(c, s) && !Late(s.engine.watermark, t)
    ensures var log := s.log + ProcessTickSpec(c.cal, c.intervals, s.engine, t).1.completed;
            EndsIncrease(BarsOf(log, Key(t.symbol, i))) && EndBy(BarsOf(log, Key(t.symbol, i)), t.timestamp)
  {
    var key, more := Key(t.symbol, i), s.filter.kept + [t];
    var completed := ProcessTickSpec(c.cal, c.intervals, s.engine, t).1.completed;
    OneMoreTick(c, s.filter.kept, t);
    SuffixAppend(s.log, AllCompleted(c, s.filter.kept), completed);
    CompletedBehind(c, more, key);
    NewestIsTick(c, s.filter.kept, t, i);
    CompletedPerSeries(c, more, key);
    SuffixBars(s.log + completed, AllCompleted(c, more), key, t.timestamp);
  }

  /** The direction the closes of the series seen so far call for at its newest candle, `None` for a hold. */
  ghost function Signalled(u: Setup, seen: seq<Candle>, c: Candle): Option<Direction>
    requires ValidSetup(u)
  {
    if c.symbol !in u.strategies || u.strategies[c.symbol].interval != c.interval then None
    else
      var closes := Ema.Closes(OfSeries(seen, KeyOf(c)));
      if closes == [] then None else Ema.SignalAt(u.strategies[c.symbol], closes)
  }

  /** The action is the one a direction and the average call for. */
  predicate Obeys(d: Option<Direction>, e: Evaluation) {
    match d
    case None => e.action == None
    case Some(d) =>
      && e.action.Some? && e.action.value.intent.direction == d
      && e.action.value.intent.symbol == e.candle.symbol
      && e.action.value.intent.timestamp == e.candle.bar.bucket.end
      && (e.action.value.CloseOut? <==> d == Exit)
      && (e.action.value.NotReady? <==> d != Exit && e.atr.None?)
      && (e.action.value.AskRisk? ==>
            e.action.value.entryPrice == e.candle.bar.close && e.atr == Some(e.action.value.atr))
  }

  /** The action follows from the closes seen so far. */
  ghost predicate Decided(u: Setup, seen: seq<Candle>, e: Evaluation)
    requires ValidSetup(u)
  {
    Obeys(Signalled(u, seen, e.candle), e)
  }

  /**
   What an evaluation depends on: completed candles seen so far, none of the series ending after
   the one evaluated. The average and the action are functions of them.
  */
  ghost predicate Causal(u: Setup, seen: seq<Candle>, e: Evaluation, time: int)
    requires ValidSetup(u)
  {
    var bars := BarsOf(seen, KeyOf(e.candle));
    && seen != [] && seen[|seen| - 1] == e.candle && AllComplete(seen)
    && EndBy(bars, e.candle.bar.bucket.end) && e.candle.bar.bucket.end <= time
    && e.atr == Atr(bars, u.atrPeriod) && Decided(u, seen, e)
  }

  lemma EvaluateOneMore(u: Setup, log: seq<Candle>, completed: seq<Candle>, n: nat)
    requires ValidSetup(u) && Ema.Positive(log) && Ema.Positive(completed) && n < |completed|
    ensures Ema.Positive(completed[..n + 1]) && Ema.Positive(log + completed[..n]) && completed[n].bar.close > 0.0
    ensures EvaluateAll(u, log, completed[..n + 1])
         == EvaluateAll(u, log, completed[..n]) + [Evaluate(u, log + completed[..n], completed[n])]
  {
    assert completed[n] in completed;
    assert forall x <- completed[..n + 1] :: x in completed;
    assert completed[..n + 1][..n] == completed[..n];
  }

  lemma EvaluateAppend(u: Setup, log: seq<Candle>, done: seq<Candle>, x: Candle)
    requires ValidSetup(u) && Ema.Positive(log) && Ema.Positive(done) && x.bar.close > 0.0
    ensures Ema.Positive(done + [x]) && Ema.Positive(log + done)
    ensures EvaluateAll(u, log, done + [x]) == EvaluateAll(u, log, done) + [Evaluate(u, log + done, x)]
  {
    assert (done + [x])[..|done| + 1] == done + [x] && (done + [x])[..|done|] == done;
    EvaluateOneMore(u, log, done + [x], |done|);
  }

  lemma EvaluateFront(u: Setup, log: seq<Candle>, completed: seq<Candle>)
    requires ValidSetup(u) && Ema.Positive(log) && Ema.Positive(completed) && completed != []
    ensures Ema.Positive(completed[..|completed| - 1])
    ensures EvaluateAll(u, log, completed[..|completed| - 1]) == EvaluateAll(u, log, completed)[..|completed| - 1]
  {
    var n := |completed| - 1;
    assert completed[..n + 1] == completed;
    EvaluateOneMore(u, log, completed, n);
  }

  lemma {:induction false} EvaluateAllPrefix(u: Setup, log: seq<Candle>, completed: seq<Candle>, n: nat)
    requires ValidSetup(u) && Ema.Positive(log) && Ema.Positive(completed) && n <= |completed|
    ensures Ema.Positive(completed[..n])
    ensures EvaluateAll(u, log, completed[..n]) == EvaluateAll(u, log, completed)[..n]
  {
    if n == |completed| {
      assert completed[..n] == completed;
    } else {
      var front := completed[..|completed| - 1];
      EvaluateFront(u, log, completed);
      EvaluateAllPrefix(u, log, front, n);
      assert front[..n] == completed[..n];
    }
  }

  lemma EvaluateAllAt(u: Setup, log: seq<Candle>, completed: seq<Candle>, n: nat)
    requires ValidSetup(u) && Ema.Positive(log) && Ema.Positive(completed) && n < |completed|
    ensures Ema.Positive(log + completed[..n]) && completed[n].bar.close > 0.0
    ensures EvaluateAll(u, log, completed)[n] == Evaluate(u, log + completed[..n], completed[n])
  {
    EvaluateOneMore(u, log, completed, n);
    EvaluateAllPrefix(u, log, completed, n + 1);
  }

  /** The guard lets `x` through, and its close is the next one of its series. */
  lemma NextClose(st: Ema.Settings, log: seq<Candle>, x: Candle)
    requires Ema.Positive(log) && x.bar.close > 0.0 && AllComplete(log) && x.isComplete
    requires st.symbol == x.symbol && st.interval == x.interval
    requires EndsIncrease(BarsOf(log, KeyOf(x)) + [x.bar])
    ensures Ema.Relevant(st, Ema.LastEnd(Ema.Used(st, Dispatched(log, x.symbol))), x)
    ensures Ema.Closes(Ema.Used(st, Dispatched(log, x.symbol))) + [x.bar.close]
         == Ema.Closes(OfSeries(log + [x], KeyOf(x)))
  {
    var bars := BarsOf(log, KeyOf(x));
    TailOfAppend(bars, x.bar);
    GuardPasses(st, log);
    SeriesBars(log, KeyOf(x));
    RelevantIfNewer(st, OfSeries(log, KeyOf(x)), bars, x);
    OfSeriesAppend(log, x, KeyOf(x));
    Ema.ClosesAppend(OfSeries(log, KeyOf(x)), x);
  }

  /** An intent that is stamped with the candle and carries direction `d`, a hold when there is none. */
  predicate Carries(pending: Option<Ema.Intent>, d: Option<Direction>, x: Candle) {
    if pending.None? then d.None?
    else
      && pending.value.symbol == x.symbol && pending.value.timestamp == x.bar.bucket.end
      && pending.value.direction == Ema.DirectionOf(d) && d != Some(Hold)
  }

  lemma SignalIsSide(st: Ema.Settings, closes: seq<real>)
    requires Ema.ValidSettings(st) && closes != []
    ensures Ema.SignalAt(st, closes) != Some(Hold)
  {}

  lemma NextIntent(u: Setup, log: seq<Candle>, x: Candle, pending: Option<Ema.Intent>)
    requires ValidSetup(u) && Ema.Positive(log) && x.bar.close > 0.0 && AllComplete(log) && x.isComplete
    requires EndsIncrease(BarsOf(log, KeyOf(x)) + [x.bar]) && x.symbol in u.strategies
    requires Ema.Positive(Dispatched(log, x.symbol))
    requires var st := u.strategies[x.symbol];
             pending == Ema.OnCandle(st, Ema.After(st, Dispatched(log, x.symbol)), x).pending
    ensures Carries(pending, Signalled(u, log + [x], x), x)
  {
    var st := u.strategies[x.symbol];
    Ema.PendingIs(st, Dispatched(log, x.symbol), x);
    if st.interval == x.interval {
      var closes := Ema.Closes(OfSeries(log + [x], KeyOf(x)));
      NextClose(st, log, x);
      assert closes != [];
      SignalIsSide(st, closes);
    }
  }

  lemma EvaluateDecided(u: Setup, log: seq<Candle>, x: Candle)
    requires ValidSetup(u) && Ema.Positive(log) && x.bar.close > 0.0 && AllComplete(log) && x.isComplete
    requires EndsIncrease(BarsOf(log, KeyOf(x)) + [x.bar])
    ensures Decided(u, log + [x], Evaluate(u, log, x))
  {
    if x.symbol in u.strategies {
      var st, dispatched := u.strategies[x.symbol], Dispatched(log, x.symbol);
      DispatchedPositive(log, x.symbol);
      NextIntent(u, log, x, Ema.OnCandle(st, Ema.After(st, dispatched), x).pending);
    }
  }

  lemma TailOfAppend(bars: seq<Bar>, last: Bar)
    requires EndsIncrease(bars + [last])
    ensures EndsIncrease(bars)
  {
    var all := bars + [last];
    assert forall k :: 0 <= k < |bars| ==> all[k] == bars[k];
  }

  lemma EvaluateCausal(u: Setup, log: seq<Candle>, x: Candle, rest: seq<Candle>, time: int)
    requires ValidSetup(u) && Ema.Positive(log) && x.bar.close > 0.0 && AllComplete(log) && x.isComplete
    requires EndsIncrease(BarsOf(log + [x] + rest, KeyOf(x))) && EndBy(BarsOf(log + [x] + rest, KeyOf(x)), time)
    ensures Causal(u, log + [x], Evaluate(u, log, x), time)
  {
    BarsOfConcat(log + [x], rest, KeyOf(x));
    BarsOfAppend(log, x, KeyOf(x));
    HeadEnds(BarsOf(log, KeyOf(x)), x.bar, BarsOf(rest, KeyOf(x)), time);
    EvaluateDecided(u, log, x);
  }

  lemma CausalAt(u: Setup, log: seq<Candle>, completed: seq<Candle>, n: nat, time: int)
    requires ValidSetup(u) && Ema.Positive(log) && Ema.Positive(completed)
    requires n < |completed| && AllComplete(log + completed)
    requires EndsIncrease(BarsOf(log + completed, KeyOf(completed[n])))
    requires EndBy(BarsOf(log + completed, KeyOf(completed[n])), time)
    ensures Causal(u, (log + completed)[..|log| + n + 1], EvaluateAll(u, log, completed)[n], time)
  {
    EvaluateAllAt(u, log, completed, n);
    CutAt(log, completed, n);
    var front, x := log + completed[..n], completed[n];
    assert forall y <- front + [x] :: y in front + [x] + completed[n + 1..];
    assert x in front + [x] && forall y <- front :: y in front + [x];
    EvaluateCausal(u, front, x, completed[n + 1..], time);
  }

  lemma CutAt<T>(a: seq<T>, b: seq<T>, n: nat)
    requires n < |b|
    ensures a + b == (a + b[..n]) + [b[n]] + b[n + 1..]
    ensures (a + b)[..|a| + n + 1] == (a + b[..n]) + [b[n]]
  {
    assert b == b[..n] + [b[n]] + b[n + 1..];
  }

  lemma TickCompletes(c: Config, s: State, t: Tick, x: Candle)
    requires x in ProcessTickSpec(c.cal, c.intervals, s.engine, t).1.completed
    ensures !Late(s.engine.watermark, t) && x.symbol == t.symbol && x.interval in c.intervals && x.isComplete
  {
    CompletedShape(c.cal, s.engine.active, t, c.intervals);
  }

  /** The series of each completed candle runs up to the tick. */
  ghost predicate UpTo(log: seq<Candle>, completed: seq<Candle>, time: int) {
    AllComplete(log + completed) && forall x <- completed ::
      EndsIncrease(BarsOf(log + completed, KeyOf(x))) && EndBy(BarsOf(log + completed, KeyOf(x)), time)
  }

  lemma LogComplete(c: Config, s: State)
    requires Explains(c, s)
    ensures AllComplete(s.log)
  {
    CompletedComplete(c, s.filter.kept);
    SuffixComplete(c, s.log, AllCompleted(c, s.filter.kept));
  }

  lemma TickRunsUpTo(c: Config, s: State, t: Tick)
    requires Distinct(c.intervals) && Explains(c, s)
    ensures UpTo(s.log, ProcessTickSpec(c.cal, c.intervals, s.engine, t).1.completed, t.timestamp)
  {
    var completed := ProcessTickSpec(c.cal, c.intervals, s.engine, t).1.completed;
    LogComplete(c, s);
    forall x <- completed ensures x.isComplete { TickCompletes(c, s, t, x); }
    forall x <- completed
      ensures EndsIncrease(BarsOf(s.log + completed, KeyOf(x)))
      ensures EndBy(BarsOf(s.log + completed, KeyOf(x)), t.timestamp)
    {
      TickCompletes(c, s, t, x);
      LogBehindTick(c, s, t, x.interval);
    }
  }

  ghost predicate AllCausal(u: Setup, log: seq<Candle>, before: nat, evaluations: seq<Evaluation>, time: int)
    requires ValidSetup(u)
  {
    && |log| == before + |evaluations|
    && (forall n :: 0 <= n < |evaluations| ==> Causal(u, log[..before + n + 1], evaluations[n], time))
  }

  lemma EvaluationsCausal(u: Setup, log: seq<Candle>, completed: seq<Candle>, time: int)
    requires ValidSetup(u) && Ema.Positive(log) && Ema.Positive(completed) && UpTo(log, completed, time)
    ensures AllCausal(u, log + completed, |log|, EvaluateAll(u, log, completed), time)
  {
    var evaluations := EvaluateAll(u, log, completed);
    forall n | 0 <= n < |evaluations| ensures Causal(u, (log + completed)[..|log| + n + 1], evaluations[n], time) {
      CausalAt(u, log, completed, n, time);
    }
  }

  /** Everything this tick causes depends on the past only. */
  ghost predicate CausedByPast(c: Config, s: State, t: Tick)
    requires Good(s) && t.price > 0.0
  {
    var (s', evaluations) := ProcessTick(c, s, t);
    AllCausal(s.setup, s'.log, |s.log|, evaluations, t.timestamp)
  }

  lemma StepCausal(c: Config, s: State, t: Tick)
    requires Distinct(c.intervals) && Good(s) && Explains(c, s) && t.price > 0.0
    ensures CausedByPast(c, s, t)
  {
    AdvanceAllPositive(c.cal, s.engine.active, t, c.intervals);
    TickRunsUpTo(c, s, t);
    EvaluationsCausal(s.setup, s.log, ProcessTickSpec(c.cal, c.intervals, s.engine, t).1.completed, t.timestamp);
  }

  /**
   In every run, with any number of reconfigurations: whatever a tick causes depends on
   completed candles only, and is dated no later than that tick.
  */
  lemma NoLookAhead(c: Config, u: Setup, inputs: seq<Input>, t: Tick)
    requires Distinct(c.intervals) && ValidSetup(u) && ValidInputs(inputs) && t.price > 0.0
    ensures CausedByPast(c, After(c, u, inputs), t)
  {
    RunExplained(c, u, inputs);
    StepCausal(c, After(c, u, inputs), t);
  }

  // ---------- the strategy uses every candle of its series ----------

  function OfSeries(log: seq<Candle>, key: Key): seq<Candle> {
    if log == [] then []
    else OfSeries(log[..|log| - 1], key) + (if KeyOf(log[|log| - 1]) == key then [log[|log| - 1]] else [])
  }

  ghost predicate AllComplete(log: seq<Candle>) {
    forall x <- log :: x.isComplete
  }

  lemma {:induction false} SeriesBars(log: seq<Candle>, key: Key)
    ensures |BarsOf(log, key)| == |OfSeries(log, key)|
    ensures forall k :: 0 <= k < |BarsOf(log, key)| ==> BarsOf(log, key)[k] == OfSeries(log, key)[k].bar
  {
    if log != [] { SeriesBars(log[..|log| - 1], key); }
  }

  lemma DispatchedAppend(log: seq<Candle>, x: Candle, symbol: string)
    ensures Dispatched(log + [x], symbol) ==
            if x.symbol == symbol then Dispatched(log, symbol) + [x] else Dispatched(log, symbol)
  {
    assert (log + [x])[..|log|] == log;
    assert Dispatched(log, symbol) + [] == Dispatched(log, symbol);
  }

  lemma UsedAppend(st: Ema.Settings, candles: seq<Candle>, x: Candle)
    ensures Ema.Used(st, candles + [x]) ==
            if Ema.Relevant(st, Ema.LastEnd(Ema.Used(st, candles)), x) then Ema.Used(st, candles) + [x]
            else Ema.Used(st, candles)
  {
    assert (candles + [x])[..|candles|] == candles;
  }

  lemma OfSeriesAppend(log: seq<Candle>, x: Candle, key: Key)
    ensures OfSeries(log + [x], key) == if KeyOf(x) == key then OfSeries(log, key) + [x] else OfSeries(log, key)
  {
    assert (log + [x])[..|log|] == log;
    assert OfSeries(log, key) + [] == OfSeries(log, key);
  }

  lemma RelevantIfNewer(st: Ema.Settings, series: seq<Candle>, bars: seq<Bar>, x: Candle)
    requires |bars| == |series| && forall k :: 0 <= k < |bars| ==> bars[k] == series[k].bar
    requires x.isComplete && x.symbol == st.symbol
    requires x.interval == st.interval ==> EndsIncrease(bars + [x.bar])
    ensures Ema.Relevant(st, Ema.LastEnd(series), x) <==> x.interval == st.interval
  {
    var more := bars + [x.bar];
    if x.interval == st.interval && bars != [] {
      assert more[|bars| - 1].bucket.end < more[|bars|].bucket.end;
    }
  }

  lemma GuardStep(st: Ema.Settings, log: seq<Candle>, x: Candle)
    requires x.isComplete && EndsIncrease(BarsOf(log + [x], Key(st.symbol, st.interval)))
    requires Ema.Used(st, Dispatched(log, st.symbol)) == OfSeries(log, Key(st.symbol, st.interval))
    ensures Ema.Used(st, Dispatched(log + [x], st.symbol)) == OfSeries(log + [x], Key(st.symbol, st.interval))
  {
    var key := Key(st.symbol, st.interval);
    BarsOfAppend(log, x, key);
    DispatchedAppend(log, x, st.symbol);
    OfSeriesAppend(log, x, key);
    if x.symbol == st.symbol {
      UsedAppend(st, Dispatched(log, st.symbol), x);
      SeriesBars(log, key);
      RelevantIfNewer(st, OfSeries(log, key), BarsOf(log, key), x);
    }
  }

  lemma {:induction false} GuardPasses(st: Ema.Settings, log: seq<Candle>)
    requires AllComplete(log) && EndsIncrease(BarsOf(log, Key(st.symbol, st.interval)))
    ensures Ema.Used(st, Dispatched(log, st.symbol)) == OfSeries(log, Key(st.symbol, st.interval))
  {
    if log != [] {
      var before, x, key := log[..|log| - 1], log[|log| - 1], Key(st.symbol, st.interval);
      assert before + [x] == log && x in log;
      assert forall y <- before :: y in log;
      BarsOfAppend(before, x, key);
      var bars, all := BarsOf(before, key), BarsOf(log, key);
      assert forall k :: 0 <= k < |bars| ==> all[k] == bars[k];
      GuardPasses(st, before);
      GuardStep(st, before, x);
    }
  }

  lemma {:induction false} CompletedComplete(c: Config, ticks: seq<Tick>)
    ensures AllComplete(AllCompleted(c, ticks))
    ensures forall x <- AllCompleted(c, ticks) :: x.interval in c.intervals
  {
    if ticks != [] {
      var before := ticks[..|ticks| - 1];
      CompletedComplete(c, before);
      CompletedShape(c.cal, Run(c.cal, c.intervals, Arrivals(before)).active, ticks[|ticks| - 1], c.intervals);
    }
  }

  /**
   In every run each strategy has used exactly the completed candles of its series since it was
   installed: its guard against stale candles never rejects a candle of the engine.
  */
  lemma GuardNeverRejects(c: Config, u: Setup, inputs: seq<Input>, symbol: string)
    requires Distinct(c.intervals) && ValidSetup(u) && ValidInputs(inputs)
    requires symbol in After(c, u, inputs).setup.strategies
    ensures var s := After(c, u, inputs); var st := s.setup.strategies[symbol];
            Ema.Used(st, Dispatched(s.log, symbol)) == OfSeries(s.log, Key(symbol, st.interval))
  {
    var s := After(c, u, inputs);
    var st, kept := s.setup.strategies[symbol], s.filter.kept;
    RunExplained(c, u, inputs);
    CompletedComplete(c, kept);
    SuffixComplete(c, s.log, AllCompleted(c, kept));
    if st.interval in c.intervals {
      var key := Key(symbol, st.interval);
      CompletedBehind(c, kept, key);
      CompletedPerSeries(c, kept, key);
      var bars := BarsOf(AllCompleted(c, kept), key);
      BoundOfEnds(bars);
      SuffixBars(s.log, AllCompleted(c, kept), key, if bars == [] then 0 else bars[|bars| - 1].bucket.end);
    } else {
      NoSeries(s.log, Key(symbol, st.interval));
    }
    GuardPasses(st, s.log);
  }

  lemma SuffixComplete(c: Config, a: seq<Candle>, b: seq<Candle>)
    requires IsSuffix(a, b) && AllComplete(b) && forall x <- b :: x.interval in c.intervals
    ensures AllComplete(a) && forall x <- a :: x.interval in c.intervals
  {
    assert forall x <- a :: x in b;
  }

  lemma BoundOfEnds(bars: seq<Bar>)
    requires EndsIncrease(bars)
    ensures EndBy(bars, if bars == [] then 0 else bars[|bars| - 1].bucket.end)
  {}

  lemma {:induction false} NoSeries(log: seq<Candle>, key: Key)
    requires forall x <- log :: x.interval != key.interval
    ensures BarsOf(log, key) == []
  {
    if log != [] { NoSeries(log[..|log| - 1], key); }
  }
}
