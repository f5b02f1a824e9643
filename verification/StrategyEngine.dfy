/**
 The strategy engine: ordered dispatch of one event to every registered plugin, with failures
 contained to the plugin that raised. A plugin is any state machine whose operations may raise.
 */
module StrategyEngine {
  import opened MarketData

  datatype SignalIntent = SignalIntent(symbol: string, strategy: string, timestamp: int, direction: Direction)

  /** The state an operation leaves behind, whether or not it raised. */
  datatype Attempt<S> = Attempt(state: S, raised: bool)

  datatype Decision<S> = Decision(state: S, raised: bool, intent: Option<SignalIntent>)

  datatype Plugin<!S> = Plugin(
    name: string, initialize: S -> Attempt<S>, reset: S -> Attempt<S>,
    onCandle: (S, Candle) -> Attempt<S>, generate: S -> Decision<S>)

  datatype Outcome = Quiet | Emits(intent: SignalIntent) | Fails

  /** What one plugin makes of one candle. */
  function Handle<S>(p: Plugin<S>, s: S, c: Candle): (S, Outcome) {
    var seen := p.onCandle(s, c);
    if seen.raised then (seen.state, Fails)
    else
      var decided := p.generate(seen.state);
      (decided.state,
       if decided.raised then Fails
       else if decided.intent.None? then Quiet
       else if decided.intent.value.strategy != p.name || decided.intent.value.symbol != c.symbol then Fails
       else Emits(decided.intent.value))
  }

  /** The plugin alone over a run of candles. */
  function Alone<S>(p: Plugin<S>, s: S, candles: seq<Candle>): (S, seq<Outcome>) {
    if candles == [] then (s, [])
    else
      var (before, outcomes) := Alone(p, s, candles[..|candles| - 1]);
      var (after, outcome) := Handle(p, before, candles[|candles| - 1]);
      (after, outcomes + [outcome])
  }

  datatype Dispatch = Dispatch(intents: seq<SignalIntent>, failures: seq<string>)

  function Reported(outcome: Outcome, name: string, d: Dispatch): Dispatch {
    match outcome
    case Quiet => d
    case Emits(i) => Dispatch(d.intents + [i], d.failures)
    case Fails => Dispatch(d.intents, d.failures + [name])
  }

  /** The report of one event, from what each plugin made of it, in registration order. */
  function Report<S>(registry: seq<Plugin<S>>, outcomes: seq<Outcome>): Dispatch
    requires |outcomes| == |registry|
  {
    if registry == [] then Dispatch([], [])
    else
      var n := |registry| - 1;
      Reported(outcomes[n], registry[n].name, Report(registry[..n], outcomes[..n]))
  }

  /** What every plugin makes of one candle. */
  function Outcomes<S>(registry: seq<Plugin<S>>, states: seq<S>, c: Candle): (r: seq<Outcome>)
    requires |states| == |registry|
    ensures |r| == |registry|
  {
    seq(|registry|, k requires 0 <= k < |registry| => Handle(registry[k], states[k], c).1)
  }

  // ---------- the engine ----------

  ghost predicate UniqueNames<S>(registry: seq<Plugin<S>>) {
    forall j, k :: 0 <= j < k < |registry| ==> registry[j].name != registry[k].name
  }

  class StrategyEngine<!S> {
    const registry: seq<Plugin<S>>
    var states: seq<S>
    var initialized: bool

    ghost predicate Valid()
      reads this
    {
      |states| == |registry| && UniqueNames(registry)
    }

    constructor (registry: seq<Plugin<S>>, states: seq<S>)
      requires |states| == |registry| && UniqueNames(registry)
      ensures Valid() && this.registry == registry && this.states == states && !initialized
    {
      this.registry, this.states, initialized := registry, states, false;
    }

    /**
     False when a plugin raises: the plugins set up so far are reset in reverse order, up to one whose
     reset raises.
    */
    method Initialize() returns (ok: bool)
      requires Valid()
      modifies this
      ensures Valid() && initialized == ok
      ensures old(initialized) ==> ok && states == old(states)
      ensures !old(initialized) ==>
                (ok <==> forall k :: 0 <= k < |registry| ==> !registry[k].initialize(old(states)[k]).raised)
      ensures !old(initialized) && ok ==>
                forall k :: 0 <= k < |registry| ==> states[k] == registry[k].initialize(old(states)[k]).state
      ensures !ok ==> exists n, last :: CleanedUp(registry, old(states), states, n, last)
    {
      if initialized {
        return true;
      }
      var n := 0;
      while n < |registry|
        invariant 0 <= n <= |registry| == |states| && UniqueNames(registry) && !initialized
        invariant forall k :: 0 <= k < n ==> !registry[k].initialize(old(states)[k]).raised
                                             && states[k] == registry[k].initialize(old(states)[k]).state
        invariant forall k :: n <= k < |registry| ==> states[k] == old(states)[k]
      {
        var attempt := registry[n].initialize(states[n]);
        states := states[n := attempt.state];
        if attempt.raised {
          var last := ResetBackwards(n);
          assert CleanedUp(registry, old(states), states, n, last);
          return false;
        }
        n := n + 1;
      }
      initialized := true;
      ok := true;
    }

    /**
     Reset the first `n` plugins, last one first; `last` is the first position whose reset raised, 0
     when none did.
    */
    method ResetBackwards(n: nat) returns (last: nat)
      requires n <= |registry| == |states|
      modifies this`states
      ensures |states| == |registry| && last <= n
      ensures last == 0 || (last < n && registry[last].reset(old(states)[last]).raised)
      ensures forall k :: last < k < n ==> !registry[k].reset(old(states)[k]).raised
      ensures forall k :: 0 <= k < |registry| ==>
                states[k] == if last <= k < n then registry[k].reset(old(states)[k]).state else old(states)[k]
    {
      last := n;
      while last > 0
        invariant 0 <= last <= n && |states| == |registry|
        invariant forall k :: last <= k < n ==> !registry[k].reset(old(states)[k]).raised
        invariant forall k :: 0 <= k < |registry| ==>
                    states[k] == if last <= k < n then registry[k].reset(old(states)[k]).state else old(states)[k]
      {
        last := last - 1;
        var attempt := registry[last].reset(states[last]);
        states := states[last := attempt.state];
        if attempt.raised {
          return;
        }
      }
    }

    /** None, changing nothing, before initialization. */
    method OnCandle(c: Candle) returns (r: Option<Dispatch>)
      requires Valid()
      modifies this`states
      ensures Valid() && r.Some? == initialized
      ensures r.None? ==> states == old(states)
      ensures r.Some? ==> r.value == Report(registry, Outcomes(registry, old(states), c))
      ensures r.Some? ==> forall k :: 0 <= k < |registry| ==> states[k] == Handle(registry[k], old(states)[k], c).0
    {
      if !initialized {
        return None;
      }
      ghost var outcomes := [];
      var report := Dispatch([], []);
      var n := 0;
      while n < |registry|
        invariant 0 <= n <= |registry| == |states| && |outcomes| == n
        invariant report == Report(registry[..n], outcomes)
        invariant forall k :: 0 <= k < n ==> (states[k], outcomes[k]) == Handle(registry[k], old(states)[k], c)
        invariant forall k :: n <= k < |registry| ==> states[k] == old(states)[k]
      {
        var (after, outcome) := Handle(registry[n], states[n], c);
        states := states[n := after];
        ReportMore(registry, outcomes, outcome, n);
        report := Reported(outcome, registry[n].name, report);
        outcomes := outcomes + [outcome];
        n := n + 1;
      }
      assert registry[..n] == registry && outcomes == Outcomes(registry, old(states), c);
      r := Some(report);
    }

    /** False when a reset raises: the plugins after it are not reset, and the engine stays as initialized as it was. */
    method Reset() returns (ok: bool)
      requires Valid()
      modifies this
      ensures Valid() && initialized == (old(initialized) && !ok)
      ensures ok <==> forall k :: 0 <= k < |registry| ==> !registry[k].reset(old(states)[k]).raised
      ensures exists n :: ResetUpTo(registry, old(states), states, n)
    {
      var n := 0;
      while n < |registry|
        invariant 0 <= n <= |registry| == |states| && UniqueNames(registry) && initialized == old(initialized)
        invariant forall k :: 0 <= k < n ==> !registry[k].reset(old(states)[k]).raised
        invariant forall k :: 0 <= k < |registry| ==>
                    states[k] == if k < n then registry[k].reset(old(states)[k]).state else old(states)[k]
      {
        var attempt := registry[n].reset(states[n]);
        states := states[n := attempt.state];
        n := n + 1;
        if attempt.raised {
          assert ResetUpTo(registry, old(states), states, n);
          return false;
        }
      }
      assert ResetUpTo(registry, old(states), states, n);
      initialized := false;
      ok := true;
    }
  }

  /**
   Plugin `n` raised while being set up: of those set up before it, all from `last` on were reset, and
   no earlier one, because `last` is the first of all or because its reset raised as well. Those after
   `n` were never touched.
  */
  ghost predicate CleanedUp<S>(registry: seq<Plugin<S>>, before: seq<S>, after: seq<S>, n: nat, last: nat)
    requires |before| == |after| == |registry|
  {
    && n < |registry| && last <= n
    && registry[n].initialize(before[n]).raised && after[n] == registry[n].initialize(before[n]).state
    && (forall k :: 0 <= k < n ==> !registry[k].initialize(before[k]).raised)
    && (forall k :: last < k < n ==> !registry[k].reset(registry[k].initialize(before[k]).state).raised)
    && (last == 0 || (last < n && registry[last].reset(registry[last].initialize(before[last]).state).raised))
    && (forall k :: last <= k < n ==> after[k] == registry[k].reset(registry[k].initialize(before[k]).state).state)
    && (forall k :: 0 <= k < last ==> after[k] == registry[k].initialize(before[k]).state)
    && (forall k :: n < k < |registry| ==> after[k] == before[k])
  }

  /** The first `n` plugins were reset: all of them, or all up to the first whose reset raised. */
  ghost predicate ResetUpTo<S>(registry: seq<Plugin<S>>, before: seq<S>, after: seq<S>, n: nat)
    requires |before| == |after| == |registry|
  {
    && n <= |registry|
    && (forall k :: 0 <= k < n - 1 ==> !registry[k].reset(before[k]).raised)
    && (n == |registry| || (n > 0 && registry[n - 1].reset(before[n - 1]).raised))
    && (forall k :: 0 <= k < |registry| ==> after[k] == if k < n then registry[k].reset(before[k]).state else before[k])
  }

  lemma ReportMore<S>(registry: seq<Plugin<S>>, outcomes: seq<Outcome>, outcome: Outcome, n: int)
    requires 0 <= n < |registry| && |outcomes| == n
    ensures Report(registry[..n + 1], outcomes + [outcome])
         == Reported(outcome, registry[n].name, Report(registry[..n], outcomes))
  {
    assert registry[..n + 1][..n] == registry[..n] && (outcomes + [outcome])[..n] == outcomes;
  }

  // ---------- plugins do not disturb each other ----------

  /** The states of all plugins after dispatching a run of candles. */
  function Together<S>(registry: seq<Plugin<S>>, states: seq<S>, candles: seq<Candle>): (r: seq<S>)
    requires |states| == |registry|
    ensures |r| == |registry|
  {
    if candles == [] then states
    else
      var before := Together(registry, states, candles[..|candles| - 1]);
      seq(|registry|, k requires 0 <= k < |registry| => Handle(registry[k], before[k], candles[|candles| - 1]).0)
  }

  /** The reports of all the dispatches, in order. */
  function Reports<S>(registry: seq<Plugin<S>>, states: seq<S>, candles: seq<Candle>): seq<Dispatch>
    requires |states| == |registry|
  {
    if candles == [] then []
    else
      var before := Together(registry, states, candles[..|candles| - 1]);
      Reports(registry, states, candles[..|candles| - 1])
      + [Report(registry, Outcomes(registry, before, candles[|candles| - 1]))]
  }

  /** Whatever the other plugins do, raising included, a plugin goes through the states it would alone. */
  lemma {:induction false} StatesIsolated<S>(registry: seq<Plugin<S>>, states: seq<S>, candles: seq<Candle>, k: nat)
    requires |states| == |registry| && k < |registry|
    ensures Together(registry, states, candles)[k] == Alone(registry[k], states[k], candles).0
  {
    if candles != [] { StatesIsolated(registry, states, candles[..|candles| - 1], k); }
  }

  /** The intents attributed to one strategy. */
  function From(intents: seq<SignalIntent>, name: string): seq<SignalIntent> {
    if intents == [] then []
    else
      var i := intents[|intents| - 1];
      From(intents[..|intents| - 1], name) + (if i.strategy == name then [i] else [])
  }

  function IntentsIn(outcome: Outcome): seq<SignalIntent> {
    if outcome.Emits? then [outcome.intent] else []
  }

  lemma FromAppend(intents: seq<SignalIntent>, i: SignalIntent, name: string)
    ensures From(intents + [i], name) == From(intents, name) + (if i.strategy == name then [i] else [])
  {
    assert (intents + [i])[..|intents|] == intents;
  }

  ghost predicate Attributed<S>(registry: seq<Plugin<S>>, outcomes: seq<Outcome>)
    requires |outcomes| == |registry|
  {
    forall k :: 0 <= k < |registry| && outcomes[k].Emits? ==> outcomes[k].intent.strategy == registry[k].name
  }

  lemma {:induction false} NobodyElse<S>(registry: seq<Plugin<S>>, outcomes: seq<Outcome>, name: string)
    requires |outcomes| == |registry| && Attributed(registry, outcomes)
    requires forall k :: 0 <= k < |registry| ==> registry[k].name != name
    ensures From(Report(registry, outcomes).intents, name) == [] && name !in Report(registry, outcomes).failures
  {
    if registry != [] {
      var n := |registry| - 1;
      NobodyElse(registry[..n], outcomes[..n], name);
      if outcomes[n].Emits? { FromAppend(Report(registry[..n], outcomes[..n]).intents, outcomes[n].intent, name); }
    }
  }

  /** Of strategy `name` the report says that it did this, no more and no less. */
  ghost predicate Says(d: Dispatch, name: string, o: Outcome) {
    From(d.intents, name) == IntentsIn(o) && (name in d.failures <==> o.Fails?)
  }

  lemma ReportedOther(d: Dispatch, outcome: Outcome, other: string, name: string, o: Outcome)
    requires Says(d, name, o) && other != name && (outcome.Emits? ==> outcome.intent.strategy == other)
    ensures Says(Reported(outcome, other, d), name, o)
  {
    if outcome.Emits? { FromAppend(d.intents, outcome.intent, name); }
  }

  lemma ReportedOwn(d: Dispatch, outcome: Outcome, name: string)
    requires From(d.intents, name) == [] && name !in d.failures && (outcome.Emits? ==> outcome.intent.strategy == name)
    ensures Says(Reported(outcome, name, d), name, outcome)
  {
    if outcome.Emits? { FromAppend(d.intents, outcome.intent, name); }
  }

  /** Read by strategy name, a report says of each plugin exactly what that plugin did. */
  lemma {:induction false} ReportSaysOf<S>(registry: seq<Plugin<S>>, outcomes: seq<Outcome>, k: nat)
    requires |outcomes| == |registry| && Attributed(registry, outcomes) && UniqueNames(registry) && k < |registry|
    ensures Says(Report(registry, outcomes), registry[k].name, outcomes[k])
  {
    var n := |registry| - 1;
    if k < n {
      ReportSaysOf(registry[..n], outcomes[..n], k);
      ReportedOther(Report(registry[..n], outcomes[..n]), outcomes[n], registry[n].name, registry[k].name, outcomes[k]);
    } else {
      NobodyElse(registry[..n], outcomes[..n], registry[n].name);
      ReportedOwn(Report(registry[..n], outcomes[..n]), outcomes[n], registry[n].name);
    }
  }

  ghost predicate AllSay(reports: seq<Dispatch>, name: string, outcomes: seq<Outcome>) {
    |reports| == |outcomes| && forall n :: 0 <= n < |reports| ==> Says(reports[n], name, outcomes[n])
  }

  lemma AllSayAppend(reports: seq<Dispatch>, name: string, outcomes: seq<Outcome>, d: Dispatch, o: Outcome)
    requires AllSay(reports, name, outcomes) && Says(d, name, o)
    ensures AllSay(reports + [d], name, outcomes + [o])
  {}

  lemma OutcomesAttributed<S>(registry: seq<Plugin<S>>, states: seq<S>, c: Candle)
    requires |states| == |registry|
    ensures Attributed(registry, Outcomes(registry, states, c))
  {}

  /**
   Over any run of candles: what the reports say of a strategy is what that strategy, run alone,
   would have emitted, and it is reported as failed exactly for the candles on which it failed.
  */
  lemma {:induction false} FailuresAreContained<S>(registry: seq<Plugin<S>>, states: seq<S>, candles: seq<Candle>,
      k: nat)
    requires |states| == |registry| && UniqueNames(registry) && k < |registry|
    ensures AllSay(Reports(registry, states, candles), registry[k].name, Alone(registry[k], states[k], candles).1)
  {
    if candles != [] {
      var before, c := candles[..|candles| - 1], candles[|candles| - 1];
      FailuresAreContained(registry, states, before, k);
      StatesIsolated(registry, states, before, k);
      var now := Together(registry, states, before);
      OutcomesAttributed(registry, now, c);
      ReportSaysOf(registry, Outcomes(registry, now, c), k);
      AllSayAppend(Reports(registry, states, before), registry[k].name, Alone(registry[k], states[k], before).1,
                   Report(registry, Outcomes(registry, now, c)), Handle(registry[k], now[k], c).1);
    }
  }

  // ---------- what a report holds ----------

  /**
   A plugin whose handler raises has failed, and its generator is not asked. Otherwise it emits exactly
   what the generator decides, if that names the plugin and the candle's symbol.
  */
  lemma HandleIs<S>(p: Plugin<S>, s: S, c: Candle)
    ensures var seen := p.onCandle(s, c); var outcome := Handle(p, s, c).1;
            && (seen.raised ==> outcome == Fails && Handle(p, s, c).0 == seen.state)
            && (!seen.raised ==>
                  var decided := p.generate(seen.state);
                  && Handle(p, s, c).0 == decided.state
                  && (outcome == Quiet <==> !decided.raised && decided.intent == None)
                  && (forall i :: outcome == Emits(i) <==> !decided.raised && decided.intent == Some(i)
                                                           && i.strategy == p.name && i.symbol == c.symbol))
  {}

  /** The positions of the plugins that a report names, in registration order. */
  ghost predicate ReportedAt<S>(registry: seq<Plugin<S>>, outcomes: seq<Outcome>, d: Dispatch,
                                emitting: seq<int>, failing: seq<int>)
    requires |outcomes| == |registry|
  {
    && |emitting| == |d.intents| && |failing| == |d.failures|
    && (forall k :: 0 <= k < |emitting| ==>
          0 <= emitting[k] < |registry| && outcomes[emitting[k]] == Emits(d.intents[k]))
    && (forall k :: 0 <= k < |failing| ==>
          0 <= failing[k] < |registry| && outcomes[failing[k]].Fails? && registry[failing[k]].name == d.failures[k])
    && Increasing(emitting) && Increasing(failing)
    && (forall n :: 0 <= n < |registry| && outcomes[n].Emits? ==> n in emitting)
    && (forall n :: 0 <= n < |registry| && outcomes[n].Fails? ==> n in failing)
  }

  ghost predicate Increasing(s: seq<int>) {
    forall j, k :: 0 <= j < k < |s| ==> s[j] < s[k]
  }

  lemma IncreasingAppend(s: seq<int>, n: int)
    requires Increasing(s) && forall k :: 0 <= k < |s| ==> s[k] < n
    ensures Increasing(s + [n])
  {}

  /** A report lists every intent and every failure once, in registration order, and nothing else. */
  lemma {:induction false} ReportInOrder<S>(registry: seq<Plugin<S>>, outcomes: seq<Outcome>)
    returns (emitting: seq<int>, failing: seq<int>)
    requires |outcomes| == |registry|
    ensures ReportedAt(registry, outcomes, Report(registry, outcomes), emitting, failing)
  {
    if registry == [] {
      emitting, failing := [], [];
    } else {
      var n := |registry| - 1;
      emitting, failing := ReportInOrder(registry[..n], outcomes[..n]);
      assert forall k :: 0 <= k < n ==> outcomes[..n][k] == outcomes[k];
      match outcomes[n]
      case Quiet =>
      case Emits(_) =>
        IncreasingAppend(emitting, n);
        emitting := emitting + [n];
      case Fails =>
        IncreasingAppend(failing, n);
        failing := failing + [n];
    }
  }

  lemma EmittedBy<S>(registry: seq<Plugin<S>>, outcomes: seq<Outcome>, i: SignalIntent) returns (n: nat)
    requires |outcomes| == |registry| && i in Report(registry, outcomes).intents
    ensures n < |registry| && outcomes[n] == Emits(i)
  {
    var emitting, failing := ReportInOrder(registry, outcomes);
    var d := Report(registry, outcomes);
    var k :| 0 <= k < |d.intents| && d.intents[k] == i;
    n := emitting[k];
  }

  /** Every reported intent carries the symbol of the candle and the name of the plugin that decided it. */
  lemma IntentsAreForTheCandle<S>(registry: seq<Plugin<S>>, states: seq<S>, c: Candle, i: SignalIntent)
    returns (n: nat)
    requires |states| == |registry| && i in Report(registry, Outcomes(registry, states, c)).intents
    ensures n < |registry| && i.strategy == registry[n].name && i.symbol == c.symbol
  {
    n := EmittedBy(registry, Outcomes(registry, states, c), i);
    HandleIs(registry[n], states[n], c);
  }
}
