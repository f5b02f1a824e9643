/**
 The execution service with its in-memory audit store and the mock broker as objects, one
 call at a time. Each call is tied to an uninterrupted run of the Execution protocol.
 */
module ExecutionService {
  import opened MarketData
  import opened Execution
  import opened Sequences

  class InMemoryExecutionAuditStore {
    var reserved: set<string>
    var orders: seq<Order>
    var portfolios: nat

    constructor ()
      ensures reserved == {} && orders == [] && portfolios == 0
    {
      reserved, orders, portfolios := {}, [], 0;
    }

    /** True for the first reservation of an id, false for every later one. */
    method ReserveOrder(request: Order) returns (first: bool)
      modifies this`reserved
      ensures first <==> request.clientOrderId !in old(reserved)
      ensures reserved == old(reserved) + {request.clientOrderId}
    {
      if request.clientOrderId in reserved {
        return false;
      }
      reserved := reserved + {request.clientOrderId};
      first := true;
    }

    method RecordOrder(order: Order)
      modifies this`orders
      ensures orders == old(orders) + [order]
    {
      orders := orders + [order];
    }

    /** The newest `limit` recorded orders, newest first. */
    method ListOrders(limit: int) returns (r: seq<Order>)
      ensures r == Reversed(LastSlice(orders, limit))
      ensures var wanted := if limit > 0 then limit else |orders| + limit;
              |r| == if wanted > |orders| then |orders| else if wanted < 0 then 0 else wanted
      ensures forall k :: 0 <= k < |r| ==> |r| <= |orders| && r[k] == orders[|orders| - 1 - k]
    {
      r := Reversed(LastSlice(orders, limit));
      ListingAt(orders, limit);
    }

    method RecordPortfolio()
      modifies this`portfolios
      ensures portfolios == old(portfolios) + 1
    {
      portfolios := portfolios + 1;
    }
  }

  /** A broker behind its submission gate, with the quantities it reports as held. The mock broker reports none. */
  class BrokerageProvider {
    const positions: map<string, int>
    var isPaper: bool
    var submissionEnabled: bool

    constructor (positions: map<string, int>)
      ensures this.positions == positions && isPaper && !submissionEnabled
    {
      this.positions, isPaper, submissionEnabled := positions, true, false;
    }

    method ConfigureRuntime(isPaper: bool, submissionEnabled: bool)
      modifies this
      ensures this.isPaper == isPaper && this.submissionEnabled == submissionEnabled
    {
      this.isPaper, this.submissionEnabled := isPaper, submissionEnabled;
    }

    /** None where the broker refuses: submission is disabled. */
    method SubmitMarketOrder(request: Order) returns (order: Option<Order>)
      ensures order == if submissionEnabled then Some(request) else None
    {
      order := if submissionEnabled then Some(request) else None;
    }

    /** None where the broker refuses: submission is disabled, or nothing is held. */
    method ClosePosition(request: Order) returns (order: Option<Order>)
      ensures order.Some? <==> submissionEnabled && Held(positions, request.symbol) != 0
      ensures order.Some? ==>
                && order.value.clientOrderId == request.clientOrderId && order.value.symbol == request.symbol
                && Undoes(order.value, positions[request.symbol])
    {
      var held := Held(positions, request.symbol);
      if !submissionEnabled || held == 0 {
        return None;
      }
      var (quantity, side) := if held > 0 then (held, "sell") else (-held, "buy");
      order := Some(request.(quantity := quantity, side := side));
    }
  }

  function Held(positions: map<string, int>, symbol: string): int {
    if symbol in positions then positions[symbol] else 0
  }

  /** The order, signed by its side, and the held quantity add up to nothing. */
  predicate Undoes(o: Order, held: int) {
    && o.quantity > 0 && (o.side == "buy" || o.side == "sell")
    && held + (if o.side == "buy" then o.quantity else -o.quantity) == 0
  }

  /** The fill that closes what is held. */
  function Closing(positions: map<string, int>, symbol: string): Fill {
    var held := Held(positions, symbol);
    if held >= 0 then Fill(held, "sell") else Fill(-held, "buy")
  }

  function ResultOf(o: Outcome): Progress {
    match o
    case Skipped => Returned(None)
    case Placed(order) => Returned(Some(order))
    case Refused => Raised
  }

  datatype Outcome = Skipped | Placed(order: Order) | Refused

  class AutomatedExecutionService {
    const broker: BrokerageProvider
    const store: InMemoryExecutionAuditStore
    var automatic: bool

    constructor (broker: BrokerageProvider, store: InMemoryExecutionAuditStore, automatic: bool, isPaper: bool)
      modifies broker
      ensures this.broker == broker && this.store == store && this.automatic == automatic
      ensures broker.submissionEnabled == automatic && broker.isPaper == isPaper
    {
      this.broker, this.store, this.automatic := broker, store, automatic;
      new;
      broker.ConfigureRuntime(isPaper, automatic);
    }

    /** What the protocol sees of the objects, with no call in progress and no history. */
    ghost function View(): World
      reads this, broker, store
    {
      World(automatic, broker.submissionEnabled, store.reserved, store.orders, map[],
            multiset{}, multiset{}, multiset{})
    }

    method ConfigureRuntime(automatic: bool, isPaper: bool)
      modifies this, broker
      ensures View() == Next(old(View()), Configure(automatic, true))
    {
      this.automatic := automatic;
      broker.ConfigureRuntime(isPaper, automatic);
    }

    /** The objects agree with a world of the protocol. */
    ghost predicate Agrees(w: World)
      reads this, broker, store
    {
      (automatic, broker.submissionEnabled, store.reserved, store.orders) == (w.automatic, w.gate, w.reserved, w.orders)
    }

    /**
     Reserve first, then submit once; the reservation stays when the broker refuses. The call
     performs exactly a run of the protocol's steps, from entering to its result.
    */
    method ExecuteEntry(s: Signal) returns (r: Outcome, ghost steps: seq<Step>)
      requires s.direction.Buy? || s.direction.Sell?
      modifies store
      ensures Agrees(Exec(old(View()), steps))
      ensures At(Exec(old(View()), steps), 0, ResultOf(r))
      ensures r.Placed? <==> old(automatic && broker.submissionEnabled && ClientOrderId(s) !in store.reserved)
      ensures r.Placed? ==> store.orders == old(store.orders) + [r.order] && Opens(r.order, s)
      ensures !r.Placed? ==> store.orders == old(store.orders)
    {
      ghost var start := View();
      var request := RequestFor(s);
      ghost var w;
      steps, w := EnterStep(start, s);
      if !automatic {
        return Skipped, steps;
      }
      steps, w := ReserveStep(start, steps, w);
      var first := store.ReserveOrder(request);
      if !first {
        assert store.reserved == old(store.reserved);
        return Skipped, steps;
      }
      steps, w := SubmitStep(start, steps, w, true, Fill(request.quantity, request.side));
      var order := broker.SubmitMarketOrder(request);
      if order.None? {
        steps, w := FailureStep(start, steps, w);
        return Refused, steps;
      }
      steps, w := RecordStep(start, steps, w);
      store.RecordOrder(order.value);
      store.RecordPortfolio();
      r := Placed(order.value);
    }

    /**
     Close a held position: reserve first, then close once. The call performs exactly a run of the
     protocol's steps, and records what the broker confirms, not what was requested.
    */
    method ExecuteExit(s: Signal) returns (r: Outcome, ghost steps: seq<Step>)
      modifies store
      ensures Agrees(Exec(old(View()), steps))
      ensures At(Exec(old(View()), steps), 0, ResultOf(r))
      ensures r.Skipped? <==> !automatic || !s.direction.Exit? || s.symbol !in broker.positions
                              || ClientOrderId(s) in old(store.reserved)
      ensures r.Placed? <==> !r.Skipped? && broker.submissionEnabled && broker.positions[s.symbol] != 0
      ensures r.Placed? ==>
                && store.orders == old(store.orders) + [r.order]
                && r.order.clientOrderId == ClientOrderId(s) && r.order.symbol == s.symbol
                && Undoes(r.order, broker.positions[s.symbol])
      ensures !r.Placed? ==> store.orders == old(store.orders)
    {
      ghost var start := View();
      var request := RequestFor(s);
      ghost var w;
      steps, w := LeaveStep(start, s);
      if !automatic || !s.direction.Exit? {
        return Skipped, steps;
      }
      store.RecordPortfolio();
      steps, w := LookStep(start, steps, w, s.symbol in broker.positions);
      if s.symbol !in broker.positions {
        return Skipped, steps;
      }
      steps, w := ReserveStep(start, steps, w);
      var first := store.ReserveOrder(request);
      if !first {
        assert store.reserved == old(store.reserved);
        return Skipped, steps;
      }
      var order := broker.ClosePosition(request);
      steps, w := SubmitStep(start, steps, w, broker.positions[s.symbol] != 0, Closing(broker.positions, s.symbol));
      if order.None? {
        steps, w := FailureStep(start, steps, w);
        return Refused, steps;
      }
      steps, w := RecordStep(start, steps, w);
      store.RecordOrder(order.value);
      store.RecordPortfolio();
      r := Placed(order.value);
    }
  }

  lemma ExecAppend(w: World, steps: seq<Step>, e: Step)
    requires Enabled(Exec(w, steps), e)
    ensures Exec(w, steps + [e]) == Next(Exec(w, steps), e)
  {
    assert (steps + [e])[..|steps|] == steps;
  }

  /** What matters of a world with one call: flags, store and where the call stands. */
  ghost predicate Stands(w: World, v: World, reserved: set<string>, orders: seq<Order>, call: Call) {
    && w.automatic == v.automatic && w.gate == v.gate && w.reserved == reserved && w.orders == orders
    && 0 in w.calls && w.calls[0] == call
  }

  lemma EnterStep(start: World, s: Signal) returns (steps: seq<Step>, w: World)
    requires start.calls == map[] && (s.direction.Buy? || s.direction.Sell?)
    ensures w == Exec(start, steps)
    ensures Stands(w, start, start.reserved, start.orders,
                   Call(RequestFor(s), false, if start.automatic then Reserving else Returned(None)))
  {
    ExecAppend(start, [], Enter(0, s));
    steps := [] + [Enter(0, s)];
    w := Exec(start, steps);
  }

  lemma LeaveStep(start: World, s: Signal) returns (steps: seq<Step>, w: World)
    requires start.calls == map[]
    ensures w == Exec(start, steps)
    ensures Stands(w, start, start.reserved, start.orders,
                   Call(RequestFor(s), true, if start.automatic && s.direction.Exit? then Looking else Returned(None)))
  {
    ExecAppend(start, [], Leave(0, s));
    steps := [] + [Leave(0, s)];
    w := Exec(start, steps);
  }

  lemma LookStep(start: World, steps: seq<Step>, v: World, held: bool) returns (steps': seq<Step>, w: World)
    requires v == Exec(start, steps) && At(v, 0, Looking)
    ensures w == Exec(start, steps')
    ensures Stands(w, v, v.reserved, v.orders, v.calls[0].(at := if held then Reserving else Returned(None)))
  {
    ExecAppend(start, steps, Look(0, held, true));
    steps' := steps + [Look(0, held, true)];
    w := Exec(start, steps');
  }

  lemma ReserveStep(start: World, steps: seq<Step>, v: World) returns (steps': seq<Step>, w: World)
    requires v == Exec(start, steps) && At(v, 0, Reserving)
    ensures w == Exec(start, steps')
    ensures var id := v.calls[0].order.clientOrderId;
            Stands(w, v, v.reserved + {id}, v.orders,
                   v.calls[0].(at := if id in v.reserved then Returned(None) else Submitting))
  {
    ExecAppend(start, steps, Reserve(0, true, true));
    steps' := steps + [Reserve(0, true, true)];
    w := Exec(start, steps');
    var id := v.calls[0].order.clientOrderId;
    assert id in v.reserved ==> v.reserved + {id} == v.reserved;
  }

  lemma SubmitStep(start: World, steps: seq<Step>, v: World, ok: bool, fill: Fill) returns (steps': seq<Step>, w: World)
    requires v == Exec(start, steps) && At(v, 0, Submitting)
    ensures w == Exec(start, steps')
    ensures Stands(w, v, v.reserved, v.orders,
                   if v.gate && ok then v.calls[0].(order := Acknowledged(v.calls[0], fill), at := Recording)
                   else v.calls[0].(at := Failing))
  {
    ExecAppend(start, steps, Submit(0, ok, fill));
    steps' := steps + [Submit(0, ok, fill)];
    w := Exec(start, steps');
  }

  lemma FailureStep(start: World, steps: seq<Step>, v: World) returns (steps': seq<Step>, w: World)
    requires v == Exec(start, steps) && At(v, 0, Failing)
    ensures w == Exec(start, steps')
    ensures Stands(w, v, v.reserved, v.orders, v.calls[0].(at := Raised))
  {
    ExecAppend(start, steps, NoteFailure(0));
    steps' := steps + [NoteFailure(0)];
    w := Exec(start, steps');
  }

  lemma RecordStep(start: World, steps: seq<Step>, v: World) returns (steps': seq<Step>, w: World)
    requires v == Exec(start, steps) && At(v, 0, Recording)
    ensures w == Exec(start, steps')
    ensures var order := v.calls[0].order;
            Stands(w, v, v.reserved, v.orders + [order], v.calls[0].(at := Returned(Some(order))))
  {
    ExecAppend(start, steps, Record(0, true));
    ExecAppend(start, steps + [Record(0, true)], Refresh(0, true));
    steps' := steps + [Record(0, true)] + [Refresh(0, true)];
    w := Exec(start, steps');
  }
}
