/**
 Idempotent order execution: reserve an order id, submit it once, record what the broker
 acknowledged. Concurrent calls are interleaved at every await; broker and storage calls may
 fail at any of them, and the submission gate may be switched at any time.
 */
module Execution {
  import opened MarketData
  import opened Sequences

  function DirectionName(d: Direction): string {
    match d
    case Buy => "BUY"
    case Sell => "SELL"
    case Exit => "EXIT"
    case Hold => "HOLD"
  }

  /** A signal that may become an order; `stamp` is its timestamp in ISO form. */
  datatype Signal = Signal(symbol: string, stamp: string, strategy: string, direction: Direction, size: int)

  /** The text from which the order id is hashed; the digest itself is taken as injective. */
  function ClientOrderId(s: Signal): string {
    s.symbol + "|" + s.stamp + "|" + s.strategy + "|" + DirectionName(s.direction)
  }

  datatype Order = Order(clientOrderId: string, symbol: string, quantity: int, side: string)

  function RequestFor(s: Signal): Order {
    if s.direction.Exit? then Order(ClientOrderId(s), s.symbol, 1, "sell")
    else Order(ClientOrderId(s), s.symbol, s.size, if s.direction.Buy? then "buy" else "sell")
  }

  // ---------- order ids identify signals ----------

  lemma {:induction false} FirstBar(a: string, x: string, b: string, y: string)
    requires '|' !in a && '|' !in b
    requires a + ("|" + x) == b + ("|" + y)
    ensures a == b && x == y
  {
    assert (a + ("|" + x))[0] == (if a == [] then '|' else a[0]);
    assert (b + ("|" + y))[0] == (if b == [] then '|' else b[0]);
    if a == [] || b == [] {
      assert a == b;
      assert (a + ("|" + x))[1..] == x && (b + ("|" + y))[1..] == y;
    } else {
      assert (a + ("|" + x))[0] == a[0] && (b + ("|" + y))[0] == b[0];
      assert (a + ("|" + x))[1..] == a[1..] + ("|" + x);
      assert (b + ("|" + y))[1..] == b[1..] + ("|" + y);
      FirstBar(a[1..], x, b[1..], y);
    }
  }

  lemma LastBar(a: string, x: string, b: string, y: string)
    requires '|' !in x && '|' !in y
    requires a + ("|" + x) == b + ("|" + y)
    ensures a == b && x == y
  {
    var s := a + ("|" + x);
    assert Reversed(s) == Reversed(x) + ("|" + Reversed(a));
    assert Reversed(s) == Reversed(y) + ("|" + Reversed(b));
    FirstBar(Reversed(x), Reversed(a), Reversed(y), Reversed(b));
    assert forall k :: 0 <= k < |x| ==> x[k] == Reversed(x)[|x| - 1 - k] == Reversed(y)[|x| - 1 - k] == y[k];
    assert forall k :: 0 <= k < |a| ==> a[k] == Reversed(a)[|a| - 1 - k] == Reversed(b)[|a| - 1 - k] == b[k];
  }

  lemma DirectionNameInjective(a: Direction, b: Direction)
    requires DirectionName(a) == DirectionName(b)
    ensures a == b
  {
    assert DirectionName(a)[0] == DirectionName(b)[0];
  }

  lemma Nested(a: string, b: string, c: string, d: string)
    ensures a + "|" + b + "|" + c + "|" + d == a + ("|" + (b + ("|" + (c + ("|" + d)))))
  {}

  lemma FourParts(a: string, b: string, c: string, d: string, a': string, b': string, c': string, d': string)
    requires '|' !in a && '|' !in a' && '|' !in b && '|' !in b' && '|' !in d && '|' !in d'
    requires a + "|" + b + "|" + c + "|" + d == a' + "|" + b' + "|" + c' + "|" + d'
    ensures a == a' && b == b' && c == c' && d == d'
  {
    Nested(a, b, c, d);
    Nested(a', b', c', d');
    FirstBar(a, b + ("|" + (c + ("|" + d))), a', b' + ("|" + (c' + ("|" + d'))));
    FirstBar(b, c + ("|" + d), b', c' + ("|" + d'));
    LastBar(c, d, c', d');
  }

  /**
   Signals have the same order id exactly when symbol, timestamp, strategy and direction agree,
   whatever characters the strategy name holds.
  */
  lemma IdIdentifiesSignal(s: Signal, t: Signal)
    requires '|' !in s.symbol && '|' !in t.symbol && '|' !in s.stamp && '|' !in t.stamp
    ensures ClientOrderId(s) == ClientOrderId(t) <==>
              s.symbol == t.symbol && s.stamp == t.stamp && s.strategy == t.strategy && s.direction == t.direction
  {
    if ClientOrderId(s) == ClientOrderId(t) {
      FourParts(s.symbol, s.stamp, s.strategy, DirectionName(s.direction),
                t.symbol, t.stamp, t.strategy, DirectionName(t.direction));
      DirectionNameInjective(s.direction, t.direction);
    }
  }

  // ---------- the protocol ----------

  /** Where a call to `execute_entry` or `execute_exit` stands. */
  datatype Progress =
    | Looking                  // exit only: about to read the portfolio
    | Reserving
    | Submitting
    | Failing                  // the broker refused; about to record the failure
    | Recording                // acknowledged; about to record the order
    | Refreshing               // recorded; about to refresh the portfolio
    | Returned(order: Option<Order>)
    | Raised

  /** `order` is the request, and once acknowledged the order the broker confirmed. */
  datatype Call = Call(order: Order, isExit: bool, at: Progress)

  /** What the broker makes of closing a position: the held quantity and the side that closes it. */
  datatype Fill = Fill(quantity: int, side: string)

  function Acknowledged(call: Call, fill: Fill): Order {
    if call.isExit then call.order.(quantity := fill.quantity, side := fill.side) else call.order
  }

  datatype World = World(
    automatic: bool,             // the service's flag
    gate: bool,                  // the broker's flag
    reserved: set<string>,
    orders: seq<Order>,          // recorded acknowledgements
    calls: map<nat, Call>,
    submitted: multiset<string>, // history: ids handed to the broker
    acked: multiset<string>,     // history: ids the broker acknowledged
    unrecorded: multiset<string>) // history: acknowledged, but recording failed

  /** `ok` is false where the broker or the storage raises. */
  datatype Step =
    | Configure(automatic: bool, ok: bool)
    | Enter(call: nat, signal: Signal)
    | Leave(call: nat, signal: Signal)
    | Look(call: nat, held: bool, ok: bool)
    | Reserve(call: nat, ok: bool, stored: bool)
    | Submit(call: nat, ok: bool, fill: Fill)
    | NoteFailure(call: nat)
    | Record(call: nat, ok: bool)
    | Refresh(call: nat, ok: bool)

  function Move(w: World, c: nat, at: Progress): World
    requires c in w.calls
  {
    w.(calls := w.calls[c := w.calls[c].(at := at)])
  }

  predicate At(w: World, c: nat, at: Progress) {
    c in w.calls && w.calls[c].at == at
  }

  predicate Enabled(w: World, step: Step) {
    match step
    case Configure(_, _) => true
    case Enter(c, s) => c !in w.calls && (s.direction.Buy? || s.direction.Sell?)
    case Leave(c, s) => c !in w.calls
    case Look(c, _, _) => At(w, c, Looking)
    case Reserve(c, _, _) => At(w, c, Reserving)
    case Submit(c, _, _) => At(w, c, Submitting)
    case NoteFailure(c) => At(w, c, Failing)
    case Record(c, _) => At(w, c, Recording)
    case Refresh(c, _) => At(w, c, Refreshing)
  }

  function Next(w: World, step: Step): World
    requires Enabled(w, step)
  {
    match step
    case Configure(automatic, ok) =>
      // the service's flag is set before the broker can refuse
      w.(automatic := automatic, gate := if ok then automatic else w.gate)
    case Enter(c, s) =>
      w.(calls := w.calls[c := Call(RequestFor(s), false, if w.automatic then Reserving else Returned(None))])
    case Leave(c, s) =>
      var at := if w.automatic && s.direction.Exit? then Looking else Returned(None);
      w.(calls := w.calls[c := Call(RequestFor(s), true, at)])
    case Look(c, held, ok) =>
      Move(w, c, if !ok then Raised else if held then Reserving else Returned(None))
    case Reserve(c, ok, stored) =>
      var id := w.calls[c].order.clientOrderId;
      if !ok then Move(w, c, Raised).(reserved := if stored then w.reserved + {id} else w.reserved)
      else if id in w.reserved then Move(w, c, Returned(None))
      else Move(w, c, Submitting).(reserved := w.reserved + {id})
    case Submit(c, ok, fill) =>
      var id := w.calls[c].order.clientOrderId;
      var tried := w.(submitted := w.submitted + multiset{id});
      if w.gate && ok then
        tried.(calls := w.calls[c := w.calls[c].(order := Acknowledged(w.calls[c], fill), at := Recording)],
               acked := w.acked + multiset{id})
      else Move(tried, c, Failing)
    case NoteFailure(c) => Move(w, c, Raised)
    case Record(c, ok) =>
      var order := w.calls[c].order;
      if ok then Move(w, c, Refreshing).(orders := w.orders + [order])
      else Move(w, c, Raised).(unrecorded := w.unrecorded + multiset{order.clientOrderId})
    case Refresh(c, ok) =>
      Move(w, c, if ok then Returned(Some(w.calls[c].order)) else Raised)
  }

  function Start(automatic: bool, gate: bool): World {
    World(automatic, gate, {}, [], map[], multiset{}, multiset{}, multiset{})
  }

  function Exec(w: World, steps: seq<Step>): World {
    if steps == [] then w
    else
      var v := Exec(w, steps[..|steps| - 1]);
      if Enabled(v, steps[|steps| - 1]) then Next(v, steps[|steps| - 1]) else v
  }

  // ---------- invariant ----------

  function OrderIds(orders: seq<Order>): multiset<string> {
    if orders == [] then multiset{}
    else OrderIds(orders[..|orders| - 1]) + multiset{orders[|orders| - 1].clientOrderId}
  }

  function IdOf(w: World, c: nat): string
    requires c in w.calls
  {
    w.calls[c].order.clientOrderId
  }

  /** The call holds a reservation it has not finished with. */
  predicate Owns(at: Progress) {
    at.Submitting? || at.Failing? || at.Recording?
  }

  predicate OwnsId(w: World, c: nat, id: string) {
    c in w.calls && Owns(w.calls[c].at) && IdOf(w, c) == id
  }

  ghost predicate Pending(w: World, id: string) {
    exists c :: OwnsId(w, c, id) && w.calls[c].at.Recording?
  }

  /** What holds of one order id: a single owner, reservation before submission, submission before acknowledgement. */
  ghost predicate Protected(w: World, id: string) {
    && (forall c, d :: OwnsId(w, c, id) && OwnsId(w, d, id) ==> c == d)
    && (forall c :: OwnsId(w, c, id) ==> id in w.reserved && (w.calls[c].at.Submitting? ==> w.submitted[id] == 0))
    && w.acked[id] <= w.submitted[id] <= 1
    && (w.submitted[id] > 0 ==> id in w.reserved)
  }

  /** Each acknowledgement is recorded, lost by a failed recording, or about to be recorded. */
  ghost predicate Accounted(w: World, id: string) {
    w.acked[id] == OrderIds(w.orders)[id] + w.unrecorded[id] + (if Pending(w, id) then 1 else 0)
  }

  ghost predicate Inv(w: World, id: string) {
    Protected(w, id) && Accounted(w, id)
  }

  lemma OrderIdsAppend(orders: seq<Order>, o: Order)
    ensures OrderIds(orders + [o]) == OrderIds(orders) + multiset{o.clientOrderId}
  {
    assert (orders + [o])[..|orders|] == orders;
  }

  /** The two worlds differ in one call only. */
  ghost predicate SameButOne(w: World, v: World, c: nat) {
    forall d :: d != c ==> (d in w.calls <==> d in v.calls) && (d in w.calls ==> w.calls[d] == v.calls[d])
  }

  /** A call that neither was nor is about to record leaves the pending orders alone. */
  lemma SamePending(w: World, v: World, c: nat, id: string)
    requires SameButOne(w, v, c)
    requires !(OwnsId(w, c, id) && w.calls[c].at.Recording?) && !(OwnsId(v, c, id) && v.calls[c].at.Recording?)
    ensures Pending(w, id) == Pending(v, id)
  {
    if d :| OwnsId(w, d, id) && w.calls[d].at.Recording? { assert OwnsId(v, d, id); }
    if d :| OwnsId(v, d, id) && v.calls[d].at.Recording? { assert OwnsId(w, d, id); }
  }

  /** Steps that change no history and give no call a reservation. */
  lemma QuietInv(w: World, v: World, c: nat, id: string)
    requires Inv(w, id) && SameButOne(w, v, c) && !OwnsId(v, c, id)
    requires OwnsId(w, c, id) ==> !w.calls[c].at.Recording?
    requires w.reserved <= v.reserved && v.orders == w.orders && v.submitted == w.submitted
    requires v.acked == w.acked && v.unrecorded == w.unrecorded
    ensures Inv(v, id)
  {
    SamePending(w, v, c, id);
    assert forall d :: OwnsId(v, d, id) ==> d != c && OwnsId(w, d, id);
  }

  /** A call that takes a new reservation becomes the only owner of its id. */
  lemma AcquireInv(w: World, v: World, c: nat, id: string)
    requires Inv(w, id) && SameButOne(w, v, c) && !OwnsId(w, c, id)
    requires OwnsId(v, c, id) && v.calls[c].at.Submitting? && id !in w.reserved
    requires v == w.(reserved := w.reserved + {id}, calls := v.calls)
    ensures Inv(v, id)
  {
    SamePending(w, v, c, id);
    assert forall d :: OwnsId(v, d, id) ==> d == c || OwnsId(w, d, id);
  }

  lemma ReserveInv(w: World, c: nat, ok: bool, stored: bool, id: string)
    requires Inv(w, id) && Enabled(w, Reserve(c, ok, stored))
    ensures Inv(Next(w, Reserve(c, ok, stored)), id)
  {
    var v := Next(w, Reserve(c, ok, stored));
    if ok && IdOf(w, c) == id && id !in w.reserved {
      AcquireInv(w, v, c, id);
    } else {
      QuietInv(w, v, c, id);
    }
  }

  lemma SubmitOwners(w: World, c: nat, ok: bool, fill: Fill, id: string)
    requires Enabled(w, Submit(c, ok, fill))
    ensures var v := Next(w, Submit(c, ok, fill));
            && SameButOne(w, v, c) && (forall d :: OwnsId(v, d, id) <==> OwnsId(w, d, id))
            && v.reserved == w.reserved && v.orders == w.orders && v.unrecorded == w.unrecorded
            && c in v.calls && IdOf(v, c) == IdOf(w, c)
  {}

  lemma SubmitCounts(w: World, c: nat, ok: bool, fill: Fill, id: string)
    requires Enabled(w, Submit(c, ok, fill))
    ensures var v := Next(w, Submit(c, ok, fill)); var one := if IdOf(w, c) == id then 1 else 0;
            && v.submitted[id] == w.submitted[id] + one
            && v.acked[id] == w.acked[id] + (if w.gate && ok then one else 0)
  {
    CountOne(w.submitted, IdOf(w, c), id);
    CountOne(w.acked, IdOf(w, c), id);
  }

  lemma SubmitProtected(w: World, c: nat, ok: bool, fill: Fill, id: string)
    requires Protected(w, id) && Enabled(w, Submit(c, ok, fill))
    ensures Protected(Next(w, Submit(c, ok, fill)), id)
  {
    var v := Next(w, Submit(c, ok, fill));
    SubmitOwners(w, c, ok, fill, id);
    SubmitCounts(w, c, ok, fill, id);
    assert IdOf(w, c) == id ==> OwnsId(w, c, id);
    assert !v.calls[c].at.Submitting?;
  }

  lemma SubmitInv(w: World, c: nat, ok: bool, fill: Fill, id: string)
    requires Inv(w, id) && Enabled(w, Submit(c, ok, fill))
    ensures Inv(Next(w, Submit(c, ok, fill)), id)
  {
    var v := Next(w, Submit(c, ok, fill));
    SubmitProtected(w, c, ok, fill, id);
    SubmitOwners(w, c, ok, fill, id);
    SubmitCounts(w, c, ok, fill, id);
    if IdOf(w, c) == id && w.gate && ok {
      assert OwnsId(w, c, id) && OwnsId(v, c, id);
      assert Pending(v, id) && !Pending(w, id);
    } else {
      SamePending(w, v, c, id);
    }
  }

  /** A call that finishes recording gives up its id; its acknowledgement stays accounted for. */
  lemma RetireInv(w: World, v: World, c: nat, id: string)
    requires Inv(w, id) && SameButOne(w, v, c) && OwnsId(w, c, id) && w.calls[c].at.Recording? && !OwnsId(v, c, id)
    requires v == w.(calls := v.calls, orders := v.orders, unrecorded := v.unrecorded)
    requires OrderIds(v.orders)[id] + v.unrecorded[id] == OrderIds(w.orders)[id] + w.unrecorded[id] + 1
    ensures Inv(v, id)
  {
    assert forall d :: OwnsId(v, d, id) ==> OwnsId(w, d, id) && d != c;
    assert Pending(w, id) && !Pending(v, id);
  }

  /** Recording another id changes nothing for this one. */
  lemma ForeignInv(w: World, v: World, c: nat, id: string)
    requires Inv(w, id) && SameButOne(w, v, c) && !OwnsId(w, c, id) && !OwnsId(v, c, id)
    requires v == w.(calls := v.calls, orders := v.orders, unrecorded := v.unrecorded)
    requires OrderIds(v.orders)[id] + v.unrecorded[id] == OrderIds(w.orders)[id] + w.unrecorded[id]
    ensures Inv(v, id)
  {
    SamePending(w, v, c, id);
    assert forall d :: OwnsId(v, d, id) ==> OwnsId(w, d, id);
  }

  lemma CountOne(m: multiset<string>, x: string, id: string)
    ensures (m + multiset{x})[id] == m[id] + (if x == id then 1 else 0)
  {}

  lemma RecordMoves(w: World, c: nat, ok: bool, id: string)
    requires Enabled(w, Record(c, ok))
    ensures var v := Next(w, Record(c, ok));
            && SameButOne(w, v, c) && !OwnsId(v, c, id)
            && v == w.(calls := v.calls, orders := v.orders, unrecorded := v.unrecorded)
  {}

  lemma RecordCounts(w: World, c: nat, ok: bool, id: string)
    requires Enabled(w, Record(c, ok))
    ensures var v := Next(w, Record(c, ok));
            OrderIds(v.orders)[id] + v.unrecorded[id]
            == OrderIds(w.orders)[id] + w.unrecorded[id] + (if IdOf(w, c) == id then 1 else 0)
  {
    OrderIdsAppend(w.orders, w.calls[c].order);
    CountOne(OrderIds(w.orders), IdOf(w, c), id);
    CountOne(w.unrecorded, IdOf(w, c), id);
  }

  lemma RecordInv(w: World, c: nat, ok: bool, id: string)
    requires Inv(w, id) && Enabled(w, Record(c, ok))
    ensures Inv(Next(w, Record(c, ok)), id)
  {
    RecordMoves(w, c, ok, id);
    RecordCounts(w, c, ok, id);
    if IdOf(w, c) == id {
      assert OwnsId(w, c, id);
      RetireInv(w, Next(w, Record(c, ok)), c, id);
    } else {
      assert !OwnsId(w, c, id);
      ForeignInv(w, Next(w, Record(c, ok)), c, id);
    }
  }

  lemma StepInv(w: World, step: Step, id: string)
    requires Inv(w, id) && Enabled(w, step)
    ensures Inv(Next(w, step), id)
  {
    match step
    case Configure(_, _) => ConfigureInv(w, Next(w, step), id);
    case Enter(c, _) => QuietInv(w, Next(w, step), c, id);
    case Leave(c, _) => QuietInv(w, Next(w, step), c, id);
    case Look(c, _, _) => QuietInv(w, Next(w, step), c, id);
    case Reserve(c, ok, stored) => ReserveInv(w, c, ok, stored, id);
    case Submit(c, ok, fill) => SubmitInv(w, c, ok, fill, id);
    case NoteFailure(c) => QuietInv(w, Next(w, step), c, id);
    case Record(c, ok) => RecordInv(w, c, ok, id);
    case Refresh(c, _) => QuietInv(w, Next(w, step), c, id);
  }

  lemma ConfigureInv(w: World, v: World, id: string)
    requires Inv(w, id) && v == w.(automatic := v.automatic, gate := v.gate)
    ensures Inv(v, id)
  {
    assert forall d :: OwnsId(v, d, id) <==> OwnsId(w, d, id);
  }

  lemma {:induction false} ExecInv(w: World, steps: seq<Step>, id: string)
    requires Inv(w, id)
    ensures Inv(Exec(w, steps), id)
  {
    if steps != [] {
      ExecInv(w, steps[..|steps| - 1], id);
      var v := Exec(w, steps[..|steps| - 1]);
      if Enabled(v, steps[|steps| - 1]) { StepInv(v, steps[|steps| - 1], id); }
    }
  }

  // ---------- results over every interleaving ----------

  /**
   Under every interleaving of entries, exits, failures and gate switches, an order id is
   submitted at most once, and only when reserved.
  */
  lemma SubmittedAtMostOnce(automatic: bool, gate: bool, steps: seq<Step>, id: string)
    ensures var w := Exec(Start(automatic, gate), steps);
            w.submitted[id] <= 1 && (w.submitted[id] == 1 ==> id in w.reserved)
  {
    ExecInv(Start(automatic, gate), steps, id);
  }

  /** Whether the last switch that took effect, or the initial setting, enables submission. */
  function EnabledBy(gate: bool, steps: seq<Step>): bool {
    if steps == [] then gate
    else
      match steps[|steps| - 1]
      case Configure(automatic, true) => automatic
      case _ => EnabledBy(gate, steps[..|steps| - 1])
  }

  /** The service's own flag follows every switch, also one that the broker refuses. */
  lemma {:induction false} FlagIsLastSwitch(automatic: bool, gate: bool, steps: seq<Step>, n: nat)
    requires n < |steps| && steps[n].Configure? && forall k :: n < k < |steps| ==> !steps[k].Configure?
    ensures Exec(Start(automatic, gate), steps).automatic == steps[n].automatic
  {
    if n < |steps| - 1 { FlagIsLastSwitch(automatic, gate, steps[..|steps| - 1], n); }
  }

  lemma {:induction false} GateIsLastSwitch(automatic: bool, gate: bool, steps: seq<Step>)
    ensures Exec(Start(automatic, gate), steps).gate == EnabledBy(gate, steps)
  {
    if steps != [] { GateIsLastSwitch(automatic, gate, steps[..|steps| - 1]); }
  }

  /** Every acknowledgement is the answer to a submission made while the last switch before it enables submission. */
  lemma AcknowledgedWhileEnabled(automatic: bool, gate: bool, steps: seq<Step>, step: Step)
    requires Exec(Start(automatic, gate), steps + [step]).acked != Exec(Start(automatic, gate), steps).acked
    ensures step.Submit? && EnabledBy(gate, steps)
  {
    var w := Exec(Start(automatic, gate), steps);
    assert (steps + [step])[..|steps|] == steps;
    assert Exec(Start(automatic, gate), steps + [step]) == if Enabled(w, step) then Next(w, step) else w;
    OnlySubmissionsAreAcknowledged(w, step);
    GateIsLastSwitch(automatic, gate, steps);
  }

  lemma OnlySubmissionsAreAcknowledged(w: World, step: Step)
    requires Enabled(w, step) && Next(w, step).acked != w.acked
    ensures step.Submit? && w.gate
  {}

  /**
   When no call is waiting to record, acknowledgements are recorded one to one, except those whose
   recording failed.
  */
  lemma RecordedOneToOne(automatic: bool, gate: bool, steps: seq<Step>)
    requires forall c :: !At(Exec(Start(automatic, gate), steps), c, Recording)
    ensures var w := Exec(Start(automatic, gate), steps);
            w.acked == OrderIds(w.orders) + w.unrecorded && forall id :: OrderIds(w.orders)[id] <= 1
  {
    var w := Exec(Start(automatic, gate), steps);
    forall id ensures w.acked[id] == OrderIds(w.orders)[id] + w.unrecorded[id] && OrderIds(w.orders)[id] <= 1 {
      ExecInv(Start(automatic, gate), steps, id);
      assert forall c :: OwnsId(w, c, id) ==> !At(w, c, Recording);
    }
  }

  // ---------- what is recorded is what was signalled ----------

  /** The order that opens a position as the signal asks. */
  predicate Opens(o: Order, s: Signal) {
    && o.clientOrderId == ClientOrderId(s) && o.symbol == s.symbol && o.quantity == s.size
    && ((s.direction.Buy? && o.side == "buy") || (s.direction.Sell? && o.side == "sell"))
  }

  ghost predicate OpenedBy(steps: seq<Step>, c: nat, o: Order) {
    exists s :: Enter(c, s) in steps && Opens(o, s)
  }

  ghost predicate LeftBy(steps: seq<Step>, c: nat, o: Order) {
    exists s :: Leave(c, s) in steps && s.direction.Exit? && o.clientOrderId == ClientOrderId(s) && o.symbol == s.symbol
  }

  ghost predicate FilledBy(steps: seq<Step>, c: nat, o: Order) {
    exists fill: Fill :: Submit(c, true, fill) in steps && (o.quantity, o.side) == (fill.quantity, fill.side)
  }

  /** The order of an exit that the broker has confirmed. */
  ghost predicate ClosedBy(steps: seq<Step>, c: nat, o: Order) {
    LeftBy(steps, c, o) && FilledBy(steps, c, o)
  }

  ghost predicate CallExplained(steps: seq<Step>, c: nat, call: Call) {
    call.at == Returned(None) ||
    if call.isExit then
      LeftBy(steps, c, call.order) && (call.at.Recording? || call.at.Refreshing? ==> FilledBy(steps, c, call.order))
    else OpenedBy(steps, c, call.order)
  }

  ghost predicate PlacedBy(steps: seq<Step>, c: nat, o: Order) {
    OpenedBy(steps, c, o) || ClosedBy(steps, c, o)
  }

  ghost predicate OrderExplained(steps: seq<Step>, o: Order) {
    exists c :: PlacedBy(steps, c, o)
  }

  ghost predicate Explained(steps: seq<Step>, w: World) {
    && (forall c :: c in w.calls ==> CallExplained(steps, c, w.calls[c]))
    && (forall k :: 0 <= k < |w.orders| ==> OrderExplained(steps, w.orders[k]))
  }

  lemma OpenedRemains(steps: seq<Step>, e: Step, c: nat, o: Order)
    ensures OpenedBy(steps, c, o) ==> OpenedBy(steps + [e], c, o)
  {
    if s :| Enter(c, s) in steps && Opens(o, s) { assert Enter(c, s) in steps + [e]; }
  }

  lemma LeftRemains(steps: seq<Step>, e: Step, c: nat, o: Order)
    ensures LeftBy(steps, c, o) ==> LeftBy(steps + [e], c, o)
  {
    if s :| Leave(c, s) in steps && s.direction.Exit? && o.clientOrderId == ClientOrderId(s) && o.symbol == s.symbol {
      assert Leave(c, s) in steps + [e];
    }
  }

  lemma FilledRemains(steps: seq<Step>, e: Step, c: nat, o: Order)
    ensures FilledBy(steps, c, o) ==> FilledBy(steps + [e], c, o)
  {
    if fill: Fill :| Submit(c, true, fill) in steps && (o.quantity, o.side) == (fill.quantity, fill.side) {
      assert Submit(c, true, fill) in steps + [e];
    }
  }

  lemma CallRemains(steps: seq<Step>, e: Step, c: nat, call: Call)
    requires CallExplained(steps, c, call)
    ensures CallExplained(steps + [e], c, call)
  {
    LeftRemains(steps, e, c, call.order);
    FilledRemains(steps, e, c, call.order);
    OpenedRemains(steps, e, c, call.order);
  }

  lemma OrderRemains(steps: seq<Step>, e: Step, o: Order)
    requires OrderExplained(steps, o)
    ensures OrderExplained(steps + [e], o)
  {
    var c :| PlacedBy(steps, c, o);
    LeftRemains(steps, e, c, o);
    FilledRemains(steps, e, c, o);
    OpenedRemains(steps, e, c, o);
    assert PlacedBy(steps + [e], c, o);
  }

  lemma StartedCall(steps: seq<Step>, w: World, e: Step)
    requires Enabled(w, e) && (e.Enter? || e.Leave?)
    ensures CallExplained(steps + [e], e.call, Next(w, e).calls[e.call])
  {
    var more, call := steps + [e], Next(w, e).calls[e.call];
    assert e in more;
    if e.Enter? {
      assert Opens(call.order, e.signal);
      assert OpenedBy(more, e.call, call.order);
    } else if call.at.Looking? {
      assert LeftBy(more, e.call, call.order);
    }
  }

  lemma SubmittedCall(steps: seq<Step>, w: World, e: Step)
    requires Enabled(w, e) && e.Submit? && CallExplained(steps, e.call, w.calls[e.call])
    ensures CallExplained(steps + [e], e.call, Next(w, e).calls[e.call])
  {
    var more, was, call := steps + [e], w.calls[e.call], Next(w, e).calls[e.call];
    CallRemains(steps, e, e.call, was);
    if call.at.Recording? && call.isExit {
      assert e in more && FilledBy(more, e.call, call.order);
      var s :| Leave(e.call, s) in more && s.direction.Exit?
               && was.order.clientOrderId == ClientOrderId(s) && was.order.symbol == s.symbol;
      assert LeftBy(more, e.call, call.order);
    }
  }

  lemma OtherMove(w: World, e: Step)
    requires Enabled(w, e) && !e.Configure? && !e.Enter? && !e.Leave? && !e.Submit?
    ensures e.call in w.calls && e.call in Next(w, e).calls
    ensures var (was, call) := (w.calls[e.call], Next(w, e).calls[e.call]);
            && call.order == was.order && call.isExit == was.isExit && was.at != Returned(None)
            && (call.at.Recording? || call.at.Refreshing? ==> was.at.Recording?)
  {}

  /** The call that an enabled step moves is explained afterwards. */
  lemma MovedCall(steps: seq<Step>, w: World, e: Step)
    requires Enabled(w, e) && !e.Configure?
    requires e.call in w.calls ==> CallExplained(steps, e.call, w.calls[e.call])
    ensures e.call in Next(w, e).calls && CallExplained(steps + [e], e.call, Next(w, e).calls[e.call])
  {
    if e.Enter? || e.Leave? {
      StartedCall(steps, w, e);
    } else if e.Submit? {
      SubmittedCall(steps, w, e);
    } else {
      OtherMove(w, e);
      CallRemains(steps, e, e.call, w.calls[e.call]);
    }
  }

  lemma OthersStay(w: World, e: Step, c: nat)
    requires Enabled(w, e) && c in Next(w, e).calls && (e.Configure? || c != e.call)
    ensures c in w.calls && Next(w, e).calls[c] == w.calls[c]
  {}

  lemma NextOrders(w: World, e: Step)
    requires Enabled(w, e)
    ensures Next(w, e).orders == w.orders ||
            (e.Record? && e.call in w.calls && w.calls[e.call].at.Recording?
             && Next(w, e).orders == w.orders + [w.calls[e.call].order])
  {}

  lemma OrdersExplained(steps: seq<Step>, w: World, e: Step)
    requires Explained(steps, w) && Enabled(w, e)
    ensures forall k :: 0 <= k < |Next(w, e).orders| ==> OrderExplained(steps + [e], Next(w, e).orders[k])
  {
    var v := Next(w, e);
    NextOrders(w, e);
    forall k | 0 <= k < |v.orders| ensures OrderExplained(steps + [e], v.orders[k]) {
      if k < |w.orders| {
        OrderRemains(steps, e, w.orders[k]);
      } else {
        var c := e.call;
        assert CallExplained(steps, c, w.calls[c]);
        assert PlacedBy(steps, c, v.orders[k]);
        OrderRemains(steps, e, v.orders[k]);
      }
    }
  }

  lemma ExplainedStep(steps: seq<Step>, w: World, e: Step)
    requires Explained(steps, w) && Enabled(w, e)
    ensures Explained(steps + [e], Next(w, e))
  {
    var v := Next(w, e);
    forall c | c in v.calls ensures CallExplained(steps + [e], c, v.calls[c]) {
      if !e.Configure? && c == e.call {
        MovedCall(steps, w, e);
      } else {
        OthersStay(w, e, c);
        CallRemains(steps, e, c, w.calls[c]);
      }
    }
    OrdersExplained(steps, w, e);
  }

  lemma ExplainedSkip(steps: seq<Step>, w: World, e: Step)
    requires Explained(steps, w)
    ensures Explained(steps + [e], w)
  {
    forall c | c in w.calls ensures CallExplained(steps + [e], c, w.calls[c]) { CallRemains(steps, e, c, w.calls[c]); }
    forall k | 0 <= k < |w.orders| ensures OrderExplained(steps + [e], w.orders[k]) {
      OrderRemains(steps, e, w.orders[k]);
    }
  }

  lemma {:induction false} ExecExplained(automatic: bool, gate: bool, steps: seq<Step>)
    ensures Explained(steps, Exec(Start(automatic, gate), steps))
  {
    if steps != [] {
      var before, e := steps[..|steps| - 1], steps[|steps| - 1];
      assert steps == before + [e];
      ExecExplained(automatic, gate, before);
      var w := Exec(Start(automatic, gate), before);
      if Enabled(w, e) { ExplainedStep(before, w, e); } else { ExplainedSkip(before, w, e); }
    }
  }

  /**
   Under every interleaving, each recorded order is of one of two kinds: for the symbol, size and side
   of an entry signal of the run; or for the symbol of an exit signal, with the quantity and side that
   the broker confirmed for that very call.
  */
  lemma RecordedAsSignalled(automatic: bool, gate: bool, steps: seq<Step>, k: nat)
    requires k < |Exec(Start(automatic, gate), steps).orders|
    ensures OrderExplained(steps, Exec(Start(automatic, gate), steps).orders[k])
  {
    ExecExplained(automatic, gate, steps);
  }

  // ---------- how calls end ----------

  /** A storage or broker call of `c` that raises. */
  predicate FailsCall(e: Step, c: nat) {
    match e
    case Look(d, _, ok) => d == c && !ok
    case Reserve(d, ok, _) => d == c && !ok
    case NoteFailure(d) => d == c
    case Record(d, ok) => d == c && !ok
    case Refresh(d, ok) => d == c && !ok
    case _ => false
  }

  /** A call that returns an order has recorded it and refreshed the portfolio. */
  ghost predicate EndExplained(steps: seq<Step>, c: nat, at: Progress) {
    && (at.Refreshing? ==> Record(c, true) in steps)
    && (at.Returned? && at.order.Some? ==> Record(c, true) in steps && Refresh(c, true) in steps)
  }

  lemma RaisedStep(w: World, e: Step, c: nat)
    requires Enabled(w, e)
    ensures At(Next(w, e), c, Raised) <==> At(w, c, Raised) || FailsCall(e, c)
  {}

  /** The `n`-th step took effect and failed the call. */
  ghost predicate FailedAt(automatic: bool, gate: bool, steps: seq<Step>, n: int, c: nat) {
    0 <= n < |steps| && FailsCall(steps[n], c) && Enabled(Exec(Start(automatic, gate), steps[..n]), steps[n])
  }

  /** A call ends with an error exactly when one of its storage or broker calls raised. */
  lemma {:induction false} RaisedExactly(automatic: bool, gate: bool, steps: seq<Step>, c: nat)
    ensures At(Exec(Start(automatic, gate), steps), c, Raised) <==>
            exists n :: FailedAt(automatic, gate, steps, n, c)
  {
    if steps != [] {
      var before, e := steps[..|steps| - 1], steps[|steps| - 1];
      var w := Exec(Start(automatic, gate), before);
      RaisedExactly(automatic, gate, before, c);
      forall n | 0 <= n < |before|
        ensures FailedAt(automatic, gate, steps, n, c) <==> FailedAt(automatic, gate, before, n, c)
      {
        assert steps[..n] == before[..n];
      }
      assert FailedAt(automatic, gate, steps, |before|, c) <==> FailsCall(e, c) && Enabled(w, e);
      if Enabled(w, e) { RaisedStep(w, e, c); }
    }
  }

  lemma EndRemains(steps: seq<Step>, e: Step, c: nat, at: Progress)
    requires EndExplained(steps, c, at)
    ensures EndExplained(steps + [e], c, at)
  {
    assert forall x <- steps :: x in steps + [e];
  }

  lemma EndOfMove(steps: seq<Step>, w: World, e: Step)
    requires Enabled(w, e) && !e.Configure?
    requires e.call in w.calls ==> EndExplained(steps, e.call, w.calls[e.call].at)
    ensures e.call in Next(w, e).calls && EndExplained(steps + [e], e.call, Next(w, e).calls[e.call].at)
  {
    assert e in steps + [e] && forall x <- steps :: x in steps + [e];
  }

  lemma {:induction false} EndsExplained(automatic: bool, gate: bool, steps: seq<Step>, c: nat)
    requires c in Exec(Start(automatic, gate), steps).calls
    ensures EndExplained(steps, c, Exec(Start(automatic, gate), steps).calls[c].at)
  {
    if steps != [] {
      var before, e := steps[..|steps| - 1], steps[|steps| - 1];
      var w := Exec(Start(automatic, gate), before);
      assert before + [e] == steps;
      if c in w.calls {
        EndsExplained(automatic, gate, before, c);
        EndRemains(before, e, c, w.calls[c].at);
      }
      if Enabled(w, e) {
        if !e.Configure? && e.call == c { EndOfMove(before, w, e); } else { OthersStay(w, e, c); }
      }
    }
  }

  /** No call is about to submit this id. */
  ghost predicate Spent(w: World, id: string) {
    id in w.reserved && forall c :: OwnsId(w, c, id) ==> !w.calls[c].at.Submitting?
  }

  lemma SpentMove(w: World, v: World, c: nat, id: string)
    requires Spent(w, id) && SameButOne(w, v, c) && w.reserved <= v.reserved
    requires OwnsId(v, c, id) ==> !v.calls[c].at.Submitting?
    ensures Spent(v, id)
  {
    assert forall d :: d != c && OwnsId(v, d, id) ==> OwnsId(w, d, id);
  }

  lemma SpentStep(w: World, step: Step, id: string)
    requires Spent(w, id) && Enabled(w, step)
    ensures Spent(Next(w, step), id) && Next(w, step).submitted[id] == w.submitted[id]
  {
    var v := Next(w, step);
    match step
    case Configure(_, _) => assert forall d :: OwnsId(v, d, id) <==> OwnsId(w, d, id);
    case Enter(c, _) => SpentMove(w, v, c, id);
    case Leave(c, _) => SpentMove(w, v, c, id);
    case Look(c, _, _) => SpentMove(w, v, c, id);
    case Reserve(c, _, _) => SpentMove(w, v, c, id);
    case Submit(c, _, _) =>
      assert IdOf(w, c) == id ==> OwnsId(w, c, id);
      SpentMove(w, v, c, id);
    case NoteFailure(c) => SpentMove(w, v, c, id);
    case Record(c, _) => SpentMove(w, v, c, id);
    case Refresh(c, _) => SpentMove(w, v, c, id);
  }

  /** Once its owner has moved past submission, an id is never submitted again, whether it failed or not. */
  lemma {:induction false} NeverResubmitted(w: World, steps: seq<Step>, id: string)
    requires Spent(w, id)
    ensures Spent(Exec(w, steps), id) && Exec(w, steps).submitted[id] == w.submitted[id]
  {
    if steps != [] {
      NeverResubmitted(w, steps[..|steps| - 1], id);
      var v := Exec(w, steps[..|steps| - 1]);
      if Enabled(v, steps[|steps| - 1]) { SpentStep(v, steps[|steps| - 1], id); }
    }
  }

  /** A submission that failed is the only one its id ever gets. */
  lemma FailedNeverResubmitted(automatic: bool, gate: bool, steps: seq<Step>, more: seq<Step>, c: nat)
    requires At(Exec(Start(automatic, gate), steps), c, Failing)
    ensures var w := Exec(Start(automatic, gate), steps); var id := IdOf(w, c);
            Exec(w, more).submitted[id] == w.submitted[id] <= 1 && id in Exec(w, more).reserved
  {
    var w := Exec(Start(automatic, gate), steps);
    var id := IdOf(w, c);
    ExecInv(Start(automatic, gate), steps, id);
    assert OwnsId(w, c, id);
    NeverResubmitted(w, more, id);
  }
}
