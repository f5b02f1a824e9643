/** The orchestrator object: the specification in Orchestrator, carried out on the live components. */
module TradingOrchestrator {
  import opened MarketData
  import opened CandleAggregation
  import opened Orchestrator
  import A = AtrTracker
  import CE = CandleEngine
  import CS = CandleStore
  import Ema = EmaCrossover
  import TP = TickProcessor

  class TradingOrchestrator {
    const processor: TP.TickProcessor
    const engine: CE.CandleEngine
    const candleStore: CS.InMemoryCandleStore
    var strategies: map<string, Ema.EmaCrossoverStrategy>
    var atr: A.AtrTracker

    ghost function Installed(): Setup
      reads this
    {
      SetupOf(strategies, atr.period)
    }

    ghost function Settings(): Config
      reads this
    {
      Config(engine.calendar, engine.intervals, processor.reject)
    }

    ghost function View(): State
      reads this, processor, processor.store, engine, engine.active.Values, atr
    {
      State(Installed(), processor.View(), engine.State(), atr.log)
    }

    /** Each strategy has been given, in order, the candles of its symbol that the tracker has seen. */
    ghost predicate Follows()
      reads this, atr, strategies.Values
    {
      && Proper(strategies) && atr.Valid() && Ema.Positive(atr.log)
      && (forall s <- strategies :: InStep(strategies[s], Dispatched(atr.log, s)))
    }

    /** The engine and the candle store are in order. */
    ghost predicate Feeds()
      reads engine, engine.active.Values, candleStore
    {
      engine.Valid() && candleStore.Valid() && PositiveBars(engine.Bars())
    }

    ghost predicate Valid()
      reads this, processor, processor.store, engine, engine.active.Values, candleStore, atr, strategies.Values
    {
      Follows() && processor.store.Valid() && Feeds()
    }

    ghost function Completes(s: CE.EngineState, t: Tick): seq<Candle> {
      CE.ProcessTickSpec(engine.calendar, engine.intervals, s, t).1.completed
    }

    /** The engine made the specified step and the store was given what that step wrote. */
    ghost predicate Advanced(s: CE.EngineState, t: Tick, s': CE.EngineState, log: seq<Candle>, log': seq<Candle>) {
      var (after, update) := CE.ProcessTickSpec(engine.calendar, engine.intervals, s, t);
      s' == after && log' == log + (update.updated + update.completed)
    }

    constructor (processor: TP.TickProcessor, engine: CE.CandleEngine, candleStore: CS.InMemoryCandleStore,
                 strategies: map<string, Ema.EmaCrossoverStrategy>, atrPeriod: nat)
      requires processor.store.Valid() && engine.Valid() && candleStore.Valid() && PositiveBars(engine.Bars())
      requires Proper(strategies) && atrPeriod > 0
      requires forall s <- strategies :: strategies[s].View() == Ema.INITIAL
      ensures Valid() && fresh(atr)
      ensures this.processor == processor && this.engine == engine && this.strategies == strategies
      ensures View() == State(SetupOf(strategies, atrPeriod), processor.View(), engine.State(), [])
    {
      this.processor, this.engine, this.candleStore := processor, engine, candleStore;
      this.strategies := strategies;
      var tracker := new A.AtrTracker(atrPeriod);
      this.atr := tracker;
      new;
      forall s <- strategies ensures InStep(strategies[s], Dispatched(atr.log, s)) {
        assert strategies[s].View() == Ema.INITIAL;
      }
    }

    /** A strategy may only be given a candle that the store already has. */
    method EvaluateCompletedCandle(c: Candle) returns (e: Evaluation)
      requires Follows() && c.bar.close > 0.0 && c in candleStore.log
      modifies atr, strategies.Values
      ensures Follows() && atr.log == old(atr.log) + [c]
      ensures ValidSetup(Installed()) && e == Evaluate(Installed(), old(atr.log), c)
    {
      ghost var log := atr.log;
      ProperSetup(strategies, atr.period);
      var average := atr.Update(c);
      var intent := None;
      if c.symbol in strategies {
        intent := GiveCandle(strategies[c.symbol], c, Dispatched(log, c.symbol));
      }
      assert Ema.Positive(log + [c]);
      forall s <- strategies ensures InStep(strategies[s], Dispatched(atr.log, s)) {
        DispatchedAppend(log, c, s);
      }
      e := Evaluation(c, average, ActionFor(intent, c, average));
    }

    method EvaluateNext(x: Candle, ghost log: seq<Candle>, ghost done: seq<Candle>, before: seq<Evaluation>)
      returns (evaluations: seq<Evaluation>)
      requires Follows() && Ema.Positive(log) && Ema.Positive(done) && x.bar.close > 0.0 && ValidSetup(Installed())
      requires x in candleStore.log
      requires atr.log == log + done && before == EvaluateAll(Installed(), log, done)
      modifies atr, strategies.Values
      ensures Follows() && atr.log == log + (done + [x]) && Ema.Positive(done + [x])
      ensures evaluations == EvaluateAll(Installed(), log, done + [x])
    {
      EvaluateAppend(Installed(), log, done, x);
      assert log + (done + [x]) == (log + done) + [x];
      var e := EvaluateCompletedCandle(x);
      evaluations := before + [e];
    }

    /** The loop over the completed candles. */
    method EvaluateCompleted(completed: seq<Candle>) returns (evaluations: seq<Evaluation>)
      requires Follows() && Ema.Positive(completed) && forall x <- completed :: x in candleStore.log
      modifies atr, strategies.Values
      ensures Follows() && atr.log == old(atr.log) + completed
      ensures ValidSetup(Installed()) && evaluations == EvaluateAll(Installed(), old(atr.log), completed)
    {
      ProperSetup(strategies, atr.period);
      ghost var log := atr.log;
      evaluations := [];
      for n := 0 to |completed|
        invariant Follows() && atr.log == log + completed[..n] && Ema.Positive(completed[..n])
        invariant evaluations == EvaluateAll(Installed(), log, completed[..n])
      {
        assert completed[..n + 1] == completed[..n] + [completed[n]];
        evaluations := EvaluateNext(completed[n], log, completed[..n], evaluations);
      }
      assert completed[..|completed|] == completed;
    }

    /** The candle engine and its store: no strategy and no filter moves. */
    method AdvanceAndStore(t: Tick) returns (completed: seq<Candle>)
      requires Valid() && t.price > 0.0
      modifies engine, engine.active.Values, candleStore
      ensures Valid() && processor.View() == old(processor.View()) && atr.log == old(atr.log)
      ensures Advanced(old(engine.State()), t, engine.State(), old(candleStore.log), candleStore.log)
      ensures completed == Completes(old(engine.State()), t) && Ema.Positive(completed)
      ensures forall x <- completed :: x in candleStore.log
    {
      var update := AdvanceCandles(engine, candleStore, t);
      completed := update.completed;
    }

    /** The strategies: neither the engine nor a store moves. */
    method EvaluateStored(completed: seq<Candle>) returns (evaluations: seq<Evaluation>)
      requires Valid() && Ema.Positive(completed) && forall x <- completed :: x in candleStore.log
      modifies atr, strategies.Values
      ensures Valid() && processor.View() == old(processor.View()) && engine.State() == old(engine.State())
      ensures atr.log == old(atr.log) + completed && ValidSetup(Installed())
      ensures evaluations == EvaluateAll(Installed(), old(atr.log), completed)
    {
      evaluations := EvaluateCompleted(completed);
      EngineUntouched(engine);
    }

    /** From the candle engine on: candles are stored before any strategy sees one. */
    method HandleAccepted(t: Tick) returns (evaluations: seq<Evaluation>)
      requires Valid() && t.price > 0.0
      modifies engine, engine.active.Values, candleStore, atr, strategies.Values
      ensures Valid() && processor.View() == old(processor.View())
      ensures Advanced(old(engine.State()), t, engine.State(), old(candleStore.log), candleStore.log)
      ensures var completed := Completes(old(engine.State()), t);
              && atr.log == old(atr.log) + completed
              && ValidSetup(Installed()) && Ema.Positive(completed)
              && evaluations == EvaluateAll(Installed(), old(atr.log), completed)
    {
      var completed := AdvanceAndStore(t);
      evaluations := EvaluateStored(completed);
    }

    /** The tick processor alone: nothing else moves. */
    method FilterTick(t: Tick) returns (accepted: bool)
      requires Valid()
      modifies processor, processor.store
      ensures Valid() && (processor.View(), accepted) == TP.ProcessSpec(processor.reject, old(processor.View()), t)
      ensures engine.State() == old(engine.State())
    {
      accepted := processor.Process(t);
      EngineUntouched(engine);
    }

    /** Late ticks change the filter only. */
    method ProcessTick(t: Tick) returns (accepted: bool, evaluations: seq<Evaluation>)
      requires Valid() && t.price > 0.0
      modifies processor, processor.store, engine, engine.active.Values, candleStore, atr, strategies.Values
      ensures Valid() && Good(old(View()))
      ensures (View(), evaluations) == Orchestrator.ProcessTick(Settings(), old(View()), t)
      ensures accepted == TP.ProcessSpec(processor.reject, old(processor.View()), t).1
      ensures candleStore.log == old(candleStore.log)
                                    + (if accepted then Written(Settings(), old(engine.State()), t) else [])
    {
      ghost var before := View();
      ProperSetup(strategies, atr.period);
      accepted := FilterTick(t);
      if !accepted {
        Assembled(Settings(), before, t, View(), []);
        return false, [];
      }
      evaluations := HandleAccepted(t);
      Assembled(Settings(), before, t, View(), evaluations);
    }

    /** Swap in strategies and a fresh tracker between market events. */
    method Reconfigure(strategies: map<string, Ema.EmaCrossoverStrategy>, atrPeriod: nat)
      requires Valid() && Proper(strategies) && atrPeriod > 0
      modifies this, strategies.Values
      ensures Valid() && fresh(atr) && this.strategies == strategies
      ensures Good(old(View())) && ValidSetup(SetupOf(strategies, atrPeriod))
      ensures View() == Step(Settings(), old(View()), Input.Reconfigure(SetupOf(strategies, atrPeriod)))
    {
      ProperSetup(this.strategies, atr.period);
      ProperSetup(strategies, atrPeriod);
      ResetAll(strategies);
      var tracker := new A.AtrTracker(atrPeriod);
      Install(strategies, tracker);
      EngineUntouched(engine);
    }

    method Install(strategies: map<string, Ema.EmaCrossoverStrategy>, tracker: A.AtrTracker)
      requires Proper(strategies) && tracker.Valid() && tracker.log == []
      requires forall s <- strategies :: strategies[s].View() == Ema.INITIAL
      modifies this
      ensures Follows() && this.strategies == strategies && atr == tracker
    {
      this.strategies, atr := strategies, tracker;
      forall s <- strategies ensures InStep(strategies[s], Dispatched([], s)) {
        assert strategies[s].View() == Ema.INITIAL;
      }
    }
  }

  twostate lemma EngineUntouched(engine: CE.CandleEngine)
    requires unchanged(engine) && forall bar <- engine.active.Values :: unchanged(bar)
    ensures engine.State() == old(engine.State()) && engine.Valid() == old(engine.Valid())
  {
    forall k <- engine.active ensures engine.active[k].View() == old(engine.active[k].View()) {
      assert engine.active[k] in engine.active.Values;
    }
    assert engine.Bars() == old(engine.Bars());
  }

  /** Every candle one accepted tick writes to the candle store. */
  function Written(c: Config, s: CE.EngineState, t: Tick): seq<Candle> {
    var update := CE.ProcessTickSpec(c.cal, c.intervals, s, t).1;
    update.updated + update.completed
  }

  /** The specification, put together from its parts. */
  lemma Assembled(c: Config, s: State, t: Tick, s': State, evaluations: seq<Evaluation>)
    requires Good(s) && t.price > 0.0
    requires s'.setup == s.setup && s'.filter == TP.ProcessSpec(c.reject, s.filter, t).0
    requires TP.ProcessSpec(c.reject, s.filter, t).1 ==>
               var (engine, update) := CE.ProcessTickSpec(c.cal, c.intervals, s.engine, t);
               && s'.engine == engine && s'.log == s.log + update.completed && Ema.Positive(update.completed)
               && evaluations == EvaluateAll(s.setup, s.log, update.completed)
    requires !TP.ProcessSpec(c.reject, s.filter, t).1 ==>
               s'.engine == s.engine && s'.log == s.log && evaluations == []
    ensures (s', evaluations) == Orchestrator.ProcessTick(c, s, t)
  {
    AdvanceAllPositive(c.cal, s.engine.active, t, c.intervals);
  }

  method ResetAll(strategies: map<string, Ema.EmaCrossoverStrategy>)
    modifies strategies.Values
    ensures forall s <- strategies :: strategies[s].View() == Ema.INITIAL
  {
    var pending := strategies.Keys;
    while pending != {}
      invariant pending <= strategies.Keys
      invariant forall s <- strategies :: s in pending || strategies[s].View() == Ema.INITIAL
      decreases pending
    {
      var s :| s in pending;
      pending := pending - {s};
      strategies[s].Reset();
    }
  }

  /** The loop that writes candles to the store, in the given order. */
  method StoreAll(store: CS.InMemoryCandleStore, candles: seq<Candle>)
    requires store.Valid()
    modifies store
    ensures store.Valid() && store.log == old(store.log) + candles
  {
    for n := 0 to |candles|
      invariant store.Valid() && store.log == old(store.log) + candles[..n]
    {
      store.Upsert(candles[n]);
    }
  }

  /** One tick through the candle engine and into the candle store. */
  method AdvanceCandles(engine: CE.CandleEngine, store: CS.InMemoryCandleStore, t: Tick)
    returns (update: CE.CandleUpdate)
    requires engine.Valid() && store.Valid() && PositiveBars(engine.Bars()) && t.price > 0.0
    modifies engine, engine.active.Values, store
    ensures engine.Valid() && store.Valid() && fresh(engine.active.Values - old(engine.active.Values))
    ensures PositiveBars(engine.Bars()) && Ema.Positive(update.completed)
    ensures (engine.State(), update) == CE.ProcessTickSpec(engine.calendar, engine.intervals, old(engine.State()), t)
    ensures store.log == old(store.log) + (update.updated + update.completed)
  {
    AdvanceAllPositive(engine.calendar, engine.Bars(), t, engine.intervals);
    update := engine.ProcessTick(t);
    label Advanced:
    StoreAll(store, update.updated + update.completed);
    EngineUntouched@Advanced(engine);
  }

  /** What the strategy engine does with one candle of its symbol. */
  method GiveCandle(strategy: Ema.EmaCrossoverStrategy, c: Candle, ghost candles: seq<Candle>)
    returns (intent: Option<Ema.Intent>)
    requires InStep(strategy, candles) && c.bar.close > 0.0
    modifies strategy
    ensures InStep(strategy, candles + [c])
    ensures intent == Ema.OnCandle(strategy.settings, Ema.After(strategy.settings, candles), c).pending
  {
    strategy.OnCandleEvent(c);
    intent := strategy.GenerateSignal();
    AfterAppend(strategy.settings, candles, c);
  }

  /** Each strategy is configured for the symbol it is filed under. */
  ghost predicate Proper(strategies: map<string, Ema.EmaCrossoverStrategy>) {
    forall s <- strategies :: Ema.ValidSettings(strategies[s].settings) && strategies[s].settings.symbol == s
  }

  lemma ProperSetup(strategies: map<string, Ema.EmaCrossoverStrategy>, atrPeriod: nat)
    requires Proper(strategies) && atrPeriod > 0
    ensures ValidSetup(SetupOf(strategies, atrPeriod))
  {}

  ghost function SetupOf(strategies: map<string, Ema.EmaCrossoverStrategy>, atrPeriod: nat): Setup {
    Setup(map s <- strategies :: strategies[s].settings, atrPeriod)
  }

  ghost predicate InStep(strategy: Ema.EmaCrossoverStrategy, candles: seq<Candle>)
    reads strategy
  {
    && Ema.ValidSettings(strategy.settings) && Ema.Positive(candles)
    && strategy.View() == Ema.After(strategy.settings, candles)
  }

  lemma AfterAppend(st: Ema.Settings, candles: seq<Candle>, x: Candle)
    requires Ema.ValidSettings(st) && Ema.Positive(candles) && x.bar.close > 0.0
    ensures Ema.Positive(candles + [x])
    ensures Ema.After(st, candles + [x]) == Ema.OnCandle(st, Ema.After(st, candles), x).(pending := None)
  {
    assert (candles + [x])[..|candles|] == candles;
  }
}
