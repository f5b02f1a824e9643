/**
 The background pipeline as an interleaving of atomic steps: one producer shards ticks
 over bounded queues by symbol, one consumer per queue screens each tick against the tick
 processor's watermark and then feeds the shared candle engine.
 */
module TradingPipeline {
  import opened MarketData
  import CE = CandleEngine
  import opened CandleAggregation

  /** How far a consumer is with the tick it took from its queue. */
  datatype Stage = Idle | Fetched(tick: Tick) | Screened(tick: Tick)

  datatype Config = Config(cal: BucketLookup, intervals: seq<Interval>, shard: string -> nat, workers: nat,
      capacity: nat)

  ghost predicate ValidConfig(c: Config) {
    c.capacity > 0 && CE.Distinct(c.intervals) && forall symbol :: c.shard(symbol) < c.workers
  }

  /** The pipeline's sharding: the symbol's hash modulo the number of queues. */
  function HashShard(hash: string -> int, workers: nat): (shard: string -> nat)
    requires workers > 0
    ensures forall symbol :: shard(symbol) < workers
  {
    symbol => hash(symbol) % workers
  }

  /** `handled`, `log` and `shown` record the ticks fully handled, and the candles completed and shown in progress. */
  datatype State = State(
    source: seq<Tick>,
    queues: seq<seq<Tick>>,
    stages: seq<Stage>,
    marks: map<string, int>,
    engine: CE.EngineState,
    handled: seq<Tick>,
    log: seq<Candle>,
    shown: seq<Candle>)

  datatype Step = Produce | Fetch(worker: nat) | Screen(worker: nat) | Aggregate(worker: nat)

  ghost predicate Shaped(c: Config, s: State) {
    |s.queues| == |s.stages| == c.workers
  }

  function Init(c: Config, ticks: seq<Tick>): State {
    State(ticks, seq(c.workers, _ => []), seq(c.workers, _ => Idle), map[], CE.EngineState(map[], map[]), [], [], [])
  }

  /** A full queue blocks the producer; an empty one blocks its consumer. */
  predicate Enabled(c: Config, s: State, step: Step)
    requires ValidConfig(c) && Shaped(c, s)
  {
    match step
    case Produce => s.source != [] && |s.queues[c.shard(s.source[0].symbol)]| < c.capacity
    case Fetch(j) => j < c.workers && s.stages[j].Idle? && s.queues[j] != []
    case Screen(j) => j < c.workers && s.stages[j].Fetched?
    case Aggregate(j) => j < c.workers && s.stages[j].Screened?
  }

  function Next(c: Config, s: State, step: Step): (s': State)
    requires ValidConfig(c) && Shaped(c, s) && Enabled(c, s, step)
    ensures Shaped(c, s')
  {
    match step
    case Produce =>
      var j := c.shard(s.source[0].symbol);
      s.(source := s.source[1..], queues := s.queues[j := s.queues[j] + [s.source[0]]])
    case Fetch(j) =>
      s.(queues := s.queues[j := s.queues[j][1..]], stages := s.stages[j := Fetched(s.queues[j][0])])
    case Screen(j) =>
      var t := s.stages[j].tick;
      if CE.Late(s.marks, t) then
        s.(stages := s.stages[j := Idle], handled := s.handled + [t])
      else
        s.(stages := s.stages[j := Screened(t)], marks := s.marks[t.symbol := t.timestamp])
    case Aggregate(j) =>
      var t := s.stages[j].tick;
      var (engine, update) := CE.ProcessTickSpec(c.cal, c.intervals, s.engine, t);
      s.(stages := s.stages[j := Idle], engine := engine, handled := s.handled + [t],
         log := s.log + update.completed, shown := s.shown + update.updated)
  }

  /** The state after a schedule; a step that is not enabled is skipped. */
  function Exec(c: Config, ticks: seq<Tick>, schedule: seq<Step>): (s: State)
    requires ValidConfig(c)
    ensures Shaped(c, s)
  {
    if schedule == [] then Init(c, ticks)
    else
      var s := Exec(c, ticks, schedule[..|schedule| - 1]);
      if Enabled(c, s, schedule[|schedule| - 1]) then Next(c, s, schedule[|schedule| - 1]) else s
  }

  // ---------- the invariant, one series at a time ----------

  function InFlight(w: Stage): seq<Tick> {
    if w.Idle? then [] else [w.tick]
  }

  ghost predicate Routed(c: Config, s: State)
    requires ValidConfig(c) && Shaped(c, s)
  {
    && (forall j :: 0 <= j < c.workers ==> |s.queues[j]| <= c.capacity)
    && (forall j, t :: 0 <= j < c.workers && t in s.queues[j] ==> c.shard(t.symbol) == j)
    && (forall j :: 0 <= j < c.workers && !s.stages[j].Idle? ==> c.shard(s.stages[j].tick.symbol) == j)
  }

  /** The ticks of a symbol, in the order in which the pipeline will finish them. */
  function Backlog(c: Config, s: State, symbol: string): seq<Tick>
    requires ValidConfig(c) && Shaped(c, s)
  {
    var j := c.shard(symbol);
    OfSymbol(symbol, InFlight(s.stages[j])) + OfSymbol(symbol, s.queues[j]) + OfSymbol(symbol, s.source)
  }

  function SeriesOf(s: State, key: CE.Key): Series {
    Series(BarsOf(s.log, key), CE.Lookup(s.engine.active, key), CE.Lookup(s.engine.watermark, key.symbol))
  }

  /** The screening watermark leads the engine's by the tick in between, if there is one. */
  ghost predicate MarksAgree(c: Config, s: State, symbol: string)
    requires ValidConfig(c) && Shaped(c, s)
  {
    var w := s.stages[c.shard(symbol)];
    if w.Screened? && w.tick.symbol == symbol then
      CE.Lookup(s.marks, symbol) == Some(w.tick.timestamp) && !CE.Late(s.engine.watermark, w.tick)
    else
      CE.Lookup(s.marks, symbol) == CE.Lookup(s.engine.watermark, symbol)
  }

  ghost predicate Inv(c: Config, ticks: seq<Tick>, s: State, key: CE.Key)
    requires ValidConfig(c) && Shaped(c, s)
  {
    && Routed(c, s)
    && OfSymbol(key.symbol, s.handled) + Backlog(c, s, key.symbol) == OfSymbol(key.symbol, ticks)
    && MarksAgree(c, s, key.symbol)
    && SeriesOf(s, key) == SeriesRun(c.cal, key, Arrivals(OfSymbol(key.symbol, s.handled)))
    && BarsOf(s.shown, key) == Shown(c.cal, key, Arrivals(OfSymbol(key.symbol, s.handled)))
  }

  lemma {:induction false} OfSymbolConcat(symbol: string, a: seq<Tick>, b: seq<Tick>)
    ensures OfSymbol(symbol, a + b) == OfSymbol(symbol, a) + OfSymbol(symbol, b)
  {
    if b == [] {
      assert a + b == a;
    } else {
      var n := |b| - 1;
      OfSymbolConcat(symbol, a, b[..n]);
      assert a + b == (a + b[..n]) + [b[n]];
      OfSymbolAppend(symbol, a + b[..n], b[n]);
    }
  }

  lemma OfSymbolHead(symbol: string, ticks: seq<Tick>)
    requires ticks != []
    ensures OfSymbol(symbol, ticks) == OfSymbol(symbol, [ticks[0]]) + OfSymbol(symbol, ticks[1..])
  {
    assert [ticks[0]] + ticks[1..] == ticks;
    OfSymbolConcat(symbol, [ticks[0]], ticks[1..]);
  }

  lemma {:induction false} OfSymbolForeign(symbol: string, ticks: seq<Tick>)
    requires forall t <- ticks :: t.symbol != symbol
    ensures OfSymbol(symbol, ticks) == []
  {
    if ticks != [] { OfSymbolForeign(symbol, ticks[..|ticks| - 1]); }
  }

  lemma InitInv(c: Config, ticks: seq<Tick>, key: CE.Key)
    requires ValidConfig(c)
    ensures Inv(c, ticks, Init(c, ticks), key)
  {
    assert [] + OfSymbol(key.symbol, ticks) == OfSymbol(key.symbol, ticks);
  }

  lemma ProduceRouted(c: Config, s: State)
    requires ValidConfig(c) && Shaped(c, s) && Routed(c, s) && Enabled(c, s, Produce)
    ensures Routed(c, Next(c, s, Produce))
  {
    var t, j, s' := s.source[0], c.shard(s.source[0].symbol), Next(c, s, Produce);
    forall k, u | 0 <= k < c.workers && u in s'.queues[k] ensures c.shard(u.symbol) == k {
      if k == j { assert u in s.queues[j] || u == t; }
    }
  }

  lemma ProduceBacklog(c: Config, s: State, symbol: string)
    requires ValidConfig(c) && Shaped(c, s) && Enabled(c, s, Produce)
    ensures Backlog(c, Next(c, s, Produce), symbol) == Backlog(c, s, symbol)
  {
    var t, j := s.source[0], c.shard(symbol);
    OfSymbolHead(symbol, s.source);
    OfSymbolConcat(symbol, s.queues[j], [t]);
    OfSymbolForeignOne(symbol, t);
    Reassociate(OfSymbol(symbol, InFlight(s.stages[j])), OfSymbol(symbol, s.queues[j]), OfSymbol(symbol, [t]),
                OfSymbol(symbol, s.source[1..]));
    assert c.shard(t.symbol) != j ==> OfSymbol(symbol, [t]) == [] && Next(c, s, Produce).queues[j] == s.queues[j];
  }

  lemma Reassociate<T>(a: seq<T>, b: seq<T>, x: seq<T>, d: seq<T>)
    ensures a + (b + x) + d == a + b + (x + d)
  {}

  lemma ProduceInv(c: Config, ticks: seq<Tick>, s: State, key: CE.Key)
    requires ValidConfig(c) && Shaped(c, s) && Inv(c, ticks, s, key) && Enabled(c, s, Produce)
    ensures Inv(c, ticks, Next(c, s, Produce), key)
  {
    ProduceRouted(c, s);
    ProduceBacklog(c, s, key.symbol);
  }

  lemma OfSymbolForeignOne(symbol: string, t: Tick)
    ensures OfSymbol(symbol, [t]) == if t.symbol == symbol then [t] else []
  {
    assert [t][..0] == [];
  }

  lemma FetchRouted(c: Config, s: State, j: nat)
    requires ValidConfig(c) && Shaped(c, s) && Routed(c, s) && Enabled(c, s, Fetch(j))
    ensures Routed(c, Next(c, s, Fetch(j)))
  {
    var s' := Next(c, s, Fetch(j));
    assert s.queues[j][0] in s.queues[j];
    forall k, u | 0 <= k < c.workers && u in s'.queues[k] ensures c.shard(u.symbol) == k {
      assert u in s.queues[k];
    }
  }

  lemma FetchBacklog(c: Config, s: State, symbol: string, j: nat)
    requires ValidConfig(c) && Shaped(c, s) && Enabled(c, s, Fetch(j))
    ensures Backlog(c, Next(c, s, Fetch(j)), symbol) == Backlog(c, s, symbol)
  {
    OfSymbolHead(symbol, s.queues[j]);
  }

  lemma FetchInv(c: Config, ticks: seq<Tick>, s: State, key: CE.Key, j: nat)
    requires ValidConfig(c) && Shaped(c, s) && Inv(c, ticks, s, key) && Enabled(c, s, Fetch(j))
    ensures Inv(c, ticks, Next(c, s, Fetch(j)), key)
  {
    FetchRouted(c, s, j);
    FetchBacklog(c, s, key.symbol, j);
  }

  ghost predicate Finishes(c: Config, s: State, s': State, j: nat) {
    && Shaped(c, s) && Shaped(c, s') && j < c.workers && !s.stages[j].Idle?
    && s'.queues == s.queues && s'.source == s.source && s'.stages == s.stages[j := Idle]
    && s'.handled == s.handled + [s.stages[j].tick]
  }

  /** A worker that is done with its tick moves it from the backlog to the handled ticks. */
  lemma FinishBacklog(c: Config, s: State, s': State, symbol: string, j: nat)
    requires ValidConfig(c) && Finishes(c, s, s', j) && Routed(c, s)
    ensures OfSymbol(symbol, s'.handled) + Backlog(c, s', symbol) == OfSymbol(symbol, s.handled) + Backlog(c, s, symbol)
  {
    var t := s.stages[j].tick;
    var k := c.shard(symbol);
    OfSymbolAppend(symbol, s.handled, t);
    OfSymbolForeignOne(symbol, t);
    if k == j {
      assert InFlight(s.stages[k]) == [t] && InFlight(s'.stages[k]) == [];
      MoveFront(OfSymbol(symbol, s.handled), OfSymbol(symbol, [t]), OfSymbol(symbol, s.queues[k]),
                OfSymbol(symbol, s.source));
    } else {
      assert t.symbol != symbol;
    }
  }

  lemma MoveFront<T>(a: seq<T>, x: seq<T>, b: seq<T>, d: seq<T>)
    ensures (a + x) + ([] + b + d) == a + (x + b + d)
  {}

  lemma FinishRouted(c: Config, s: State, s': State, j: nat)
    requires ValidConfig(c) && Finishes(c, s, s', j) && Routed(c, s)
    ensures Routed(c, s')
  {}

  /** A tick the screen drops changes neither watermark and would not change the reference run. */
  lemma ScreenDrops(c: Config, s: State, key: CE.Key, j: nat)
    requires ValidConfig(c) && Shaped(c, s) && Routed(c, s) && MarksAgree(c, s, key.symbol)
    requires Enabled(c, s, Screen(j)) && CE.Late(s.marks, s.stages[j].tick)
    ensures MarksAgree(c, Next(c, s, Screen(j)), key.symbol)
    ensures s.stages[j].tick.symbol == key.symbol ==>
              && SeriesStep(c.cal, key, SeriesOf(s, key), Arrive(s.stages[j].tick)) == SeriesOf(s, key)
              && ShownBy(c.cal, key, SeriesOf(s, key), Arrive(s.stages[j].tick)) == []
  {}

  lemma ScreenPasses(c: Config, s: State, symbol: string, j: nat)
    requires ValidConfig(c) && Shaped(c, s) && Routed(c, s) && MarksAgree(c, s, symbol)
    requires Enabled(c, s, Screen(j)) && !CE.Late(s.marks, s.stages[j].tick)
    ensures MarksAgree(c, Next(c, s, Screen(j)), symbol) && Routed(c, Next(c, s, Screen(j)))
    ensures Backlog(c, Next(c, s, Screen(j)), symbol) == Backlog(c, s, symbol)
  {
    assert InFlight(Screened(s.stages[j].tick)) == InFlight(s.stages[j]);
  }

  lemma ScreenInv(c: Config, ticks: seq<Tick>, s: State, key: CE.Key, j: nat)
    requires ValidConfig(c) && Shaped(c, s) && Inv(c, ticks, s, key) && Enabled(c, s, Screen(j))
    ensures Inv(c, ticks, Next(c, s, Screen(j)), key)
  {
    if CE.Late(s.marks, s.stages[j].tick) {
      FinishBacklog(c, s, Next(c, s, Screen(j)), key.symbol, j);
      FinishRouted(c, s, Next(c, s, Screen(j)), j);
      ScreenDrops(c, s, key, j);
      FinishSeries(c, s, key, s.stages[j].tick);
    } else {
      ScreenPasses(c, s, key.symbol, j);
    }
  }

  /** What finishing one tick adds to the reference run. */
  lemma FinishSeries(c: Config, s: State, key: CE.Key, t: Tick)
    ensures SeriesRun(c.cal, key, Arrivals(OfSymbol(key.symbol, s.handled + [t]))) ==
            var run := SeriesRun(c.cal, key, Arrivals(OfSymbol(key.symbol, s.handled)));
            if t.symbol == key.symbol then SeriesStep(c.cal, key, run, Arrive(t)) else run
    ensures Shown(c.cal, key, Arrivals(OfSymbol(key.symbol, s.handled + [t]))) ==
            var events := Arrivals(OfSymbol(key.symbol, s.handled));
            if t.symbol == key.symbol then
              Shown(c.cal, key, events) + ShownBy(c.cal, key, SeriesRun(c.cal, key, events), Arrive(t))
            else Shown(c.cal, key, events)
  {
    OfSymbolAppend(key.symbol, s.handled, t);
    ArrivalsAppend(OfSymbol(key.symbol, s.handled), t);
    SeriesRunUnfold(c.cal, key, Arrivals(OfSymbol(key.symbol, s.handled)), Arrive(t));
    ShownUnfold(c.cal, key, Arrivals(OfSymbol(key.symbol, s.handled)), Arrive(t));
  }

  lemma AggregateSeries(c: Config, s: State, key: CE.Key, j: nat)
    requires ValidConfig(c) && key.interval in c.intervals && Shaped(c, s) && Enabled(c, s, Aggregate(j))
    ensures SeriesOf(Next(c, s, Aggregate(j)), key)
            == SeriesStep(c.cal, key, SeriesOf(s, key), Arrive(s.stages[j].tick))
    ensures BarsOf(Next(c, s, Aggregate(j)).shown, key)
         == BarsOf(s.shown, key) + ShownBy(c.cal, key, SeriesOf(s, key), Arrive(s.stages[j].tick))
  {
    var t := s.stages[j].tick;
    BarsOfConcat(s.shown, CE.ProcessTickSpec(c.cal, c.intervals, s.engine, t).1.updated, key);
    ShownArrive(c.cal, c.intervals, s.engine, t, BarsOf(s.log, key), key);
    BarsOfConcat(s.log, CE.ProcessTickSpec(c.cal, c.intervals, s.engine, t).1.completed, key);
    SeparableArrive(c.cal, c.intervals, s.engine, t, BarsOf(s.log, key), key);
  }

  lemma AggregateMarks(c: Config, s: State, symbol: string, j: nat)
    requires ValidConfig(c) && Shaped(c, s) && Routed(c, s) && Enabled(c, s, Aggregate(j)) && MarksAgree(c, s, symbol)
    ensures MarksAgree(c, Next(c, s, Aggregate(j)), symbol)
  {}

  lemma AggregateInv(c: Config, ticks: seq<Tick>, s: State, key: CE.Key, j: nat)
    requires ValidConfig(c) && key.interval in c.intervals
    requires Shaped(c, s) && Inv(c, ticks, s, key) && Enabled(c, s, Aggregate(j))
    ensures Inv(c, ticks, Next(c, s, Aggregate(j)), key)
  {
    FinishBacklog(c, s, Next(c, s, Aggregate(j)), key.symbol, j);
    FinishRouted(c, s, Next(c, s, Aggregate(j)), j);
    AggregateMarks(c, s, key.symbol, j);
    AggregateSeries(c, s, key, j);
    FinishSeries(c, s, key, s.stages[j].tick);
  }

  lemma {:induction false} ExecInv(c: Config, ticks: seq<Tick>, schedule: seq<Step>, key: CE.Key)
    requires ValidConfig(c) && key.interval in c.intervals
    ensures Inv(c, ticks, Exec(c, ticks, schedule), key)
  {
    if schedule == [] {
      InitInv(c, ticks, key);
    } else {
      var before := schedule[..|schedule| - 1];
      ExecInv(c, ticks, before, key);
      var s := Exec(c, ticks, before);
      var step := schedule[|schedule| - 1];
      if Enabled(c, s, step) {
        match step
        case Produce => ProduceInv(c, ticks, s, key);
        case Fetch(j) => FetchInv(c, ticks, s, key, j);
        case Screen(j) => ScreenInv(c, ticks, s, key, j);
        case Aggregate(j) => AggregateInv(c, ticks, s, key, j);
      }
    }
  }

  // ---------- results over every schedule ----------

  predicate Quiescent(s: State) {
    s.source == [] && (forall q <- s.queues :: q == []) && (forall w <- s.stages :: w.Idle?)
  }

  /**
   For every worker count, capacity, hash and schedule, and at every moment: each series equals
   the one of a sequential engine fed the symbol's own ticks handled so far, which are a prefix
   of its sub-stream in the original order.
  */
  lemma EveryScheduleIsSequential(c: Config, ticks: seq<Tick>, schedule: seq<Step>, key: CE.Key)
    requires ValidConfig(c) && key.interval in c.intervals
    ensures var s := Exec(c, ticks, schedule); var own := OfSymbol(key.symbol, s.handled);
            && own <= OfSymbol(key.symbol, ticks)
            && BarsOf(s.log, key) == Completed(c.cal, c.intervals, Arrivals(own), key)
            && BarsOf(s.shown, key) == Updated(c.cal, c.intervals, Arrivals(own), key)
            && CE.Lookup(s.engine.active, key) == CE.Lookup(Run(c.cal, c.intervals, Arrivals(own)).active, key)
  {
    ExecInv(c, ticks, schedule, key);
    var s := Exec(c, ticks, schedule);
    Separable(c.cal, c.intervals, Arrivals(OfSymbol(key.symbol, s.handled)), key);
    ShownSeparable(c.cal, c.intervals, Arrivals(OfSymbol(key.symbol, s.handled)), key);
  }

  /** Once the pipeline is quiescent, each series is the sequential one of its whole sub-stream. */
  lemma QuiescentIsComplete(c: Config, ticks: seq<Tick>, schedule: seq<Step>, key: CE.Key)
    requires ValidConfig(c) && key.interval in c.intervals && Quiescent(Exec(c, ticks, schedule))
    ensures var s := Exec(c, ticks, schedule); var events := Arrivals(OfSymbol(key.symbol, ticks));
            && BarsOf(s.log, key) == Completed(c.cal, c.intervals, events, key)
            && BarsOf(s.shown, key) == Updated(c.cal, c.intervals, events, key)
            && BarsOf(s.log, key) + Optional(CE.Lookup(s.engine.active, key))
              == Emitted(c.cal, c.intervals, events, key)
  {
    var s := Exec(c, ticks, schedule);
    var j := c.shard(key.symbol);
    ExecInv(c, ticks, schedule, key);
    EveryScheduleIsSequential(c, ticks, schedule, key);
    assert s.queues[j] in s.queues && s.stages[j] in s.stages;
    assert Backlog(c, s, key.symbol) == [];
    assert OfSymbol(key.symbol, s.handled) + [] == OfSymbol(key.symbol, s.handled);
  }

  lemma StepRouted(c: Config, s: State, step: Step)
    requires ValidConfig(c) && Shaped(c, s) && Routed(c, s) && Enabled(c, s, step)
    ensures Routed(c, Next(c, s, step))
  {
    match step
    case Produce => ProduceRouted(c, s);
    case Fetch(j) => FetchRouted(c, s, j);
    case Screen(j) => if CE.Late(s.marks, s.stages[j].tick) { FinishRouted(c, s, Next(c, s, step), j); }
    case Aggregate(j) => FinishRouted(c, s, Next(c, s, step), j);
  }

  lemma {:induction false} ExecRouted(c: Config, ticks: seq<Tick>, schedule: seq<Step>)
    requires ValidConfig(c)
    ensures Routed(c, Exec(c, ticks, schedule))
  {
    if schedule != [] {
      ExecRouted(c, ticks, schedule[..|schedule| - 1]);
      var s := Exec(c, ticks, schedule[..|schedule| - 1]);
      if Enabled(c, s, schedule[|schedule| - 1]) { StepRouted(c, s, schedule[|schedule| - 1]); }
    }
  }

  /** In every schedule no queue exceeds its capacity, and each queue holds only symbols of its own shard. */
  lemma QueuesBounded(c: Config, ticks: seq<Tick>, schedule: seq<Step>, j: nat)
    requires ValidConfig(c) && j < c.workers
    ensures var q := Exec(c, ticks, schedule).queues[j];
            |q| <= c.capacity && forall t <- q :: c.shard(t.symbol) == j
  {
    ExecRouted(c, ticks, schedule);
  }

  /** No deadlock: unless everything is handled, some step is enabled. */
  lemma NoDeadlock(c: Config, s: State)
    requires ValidConfig(c) && Shaped(c, s) && !Quiescent(s)
    ensures exists step :: Enabled(c, s, step)
  {
    if w :| w in s.stages && !w.Idle? {
      var j :| 0 <= j < c.workers && s.stages[j] == w;
      assert Enabled(c, s, Screen(j)) || Enabled(c, s, Aggregate(j));
    } else if q :| q in s.queues && q != [] {
      var j :| 0 <= j < c.workers && s.queues[j] == q;
      assert s.stages[j] in s.stages;
      assert Enabled(c, s, Fetch(j));
    } else {
      assert s.queues[c.shard(s.source[0].symbol)] in s.queues;
      assert Enabled(c, s, Produce);
    }
  }

  // ---------- every schedule finishes ----------

  function StageWork(w: Stage): nat {
    match w
    case Idle => 0
    case Fetched(_) => 2
    case Screened(_) => 1
  }

  function QueueWork(queues: seq<seq<Tick>>): nat {
    if queues == [] then 0 else QueueWork(queues[..|queues| - 1]) + 3 * |queues[|queues| - 1]|
  }

  function StagesWork(stages: seq<Stage>): nat {
    if stages == [] then 0 else StagesWork(stages[..|stages| - 1]) + StageWork(stages[|stages| - 1])
  }

  function Work(s: State): nat {
    4 * |s.source| + QueueWork(s.queues) + StagesWork(s.stages)
  }

  lemma {:induction false} QueueWorkUpdate(queues: seq<seq<Tick>>, j: nat, q: seq<Tick>)
    requires j < |queues|
    ensures QueueWork(queues[j := q]) == QueueWork(queues) - 3 * |queues[j]| + 3 * |q|
  {
    var n := |queues| - 1;
    if j < n {
      QueueWorkUpdate(queues[..n], j, q);
      assert queues[j := q][..n] == queues[..n][j := q];
    } else {
      assert queues[j := q][..n] == queues[..n];
    }
  }

  lemma {:induction false} StagesWorkUpdate(stages: seq<Stage>, j: nat, w: Stage)
    requires j < |stages|
    ensures StagesWork(stages[j := w]) == StagesWork(stages) - StageWork(stages[j]) + StageWork(w)
  {
    var n := |stages| - 1;
    if j < n {
      StagesWorkUpdate(stages[..n], j, w);
      assert stages[j := w][..n] == stages[..n][j := w];
    } else {
      assert stages[j := w][..n] == stages[..n];
    }
  }

  /** Every enabled step reduces the remaining work, so no schedule has more than four steps per tick. */
  lemma StepsMakeProgress(c: Config, s: State, step: Step)
    requires ValidConfig(c) && Shaped(c, s) && Enabled(c, s, step)
    ensures Work(Next(c, s, step)) < Work(s)
  {
    match step
    case Produce =>
      var j := c.shard(s.source[0].symbol);
      QueueWorkUpdate(s.queues, j, s.queues[j] + [s.source[0]]);
    case Fetch(j) =>
      QueueWorkUpdate(s.queues, j, s.queues[j][1..]);
      StagesWorkUpdate(s.stages, j, Fetched(s.queues[j][0]));
    case Screen(j) =>
      var t := s.stages[j].tick;
      StagesWorkUpdate(s.stages, j, if CE.Late(s.marks, t) then Idle else Screened(t));
    case Aggregate(j) =>
      StagesWorkUpdate(s.stages, j, Idle);
  }
}
