/**
 Account limits over whole runs of entries and exits: each step evaluates risk on the
 current portfolio and executes against a broker that fills at the entry price and leaves
 marks where they are.
 */
module PortfolioLimits {
  import opened MarketData
  import opened RiskEngine

  datatype Position = Position(symbol: string, quantity: int, mark: real)

  datatype Account = Account(cash: real, positions: seq<Position>)

  function Gross(positions: seq<Position>): real {
    if positions == [] then 0.0
    else
      Gross(positions[..|positions| - 1])
      + Times(positions[|positions| - 1].quantity, positions[|positions| - 1].mark)
  }

  function Equity(a: Account): real {
    a.cash + Gross(a.positions)
  }

  predicate Holds(a: Account, symbol: string) {
    exists k :: 0 <= k < |a.positions| && a.positions[k].symbol == symbol
  }

  /** The context an entry is evaluated in; `buyingPower` and the day's result come from the broker. */
  function ContextFor(a: Account, symbol: string, entry: real, atr: real, buyingPower: real, dailyPnl: real): Context {
    Context(entry, atr, Equity(a), dailyPnl, 0, Min(a.cash, buyingPower), Gross(a.positions), |a.positions|,
            Holds(a, symbol), Holds(a, symbol))
  }

  datatype Step =
    | Enter(symbol: string, entry: real, atr: real, buyingPower: real, dailyPnl: real)
    | Leave(symbol: string)

  predicate ValidStep(s: Step) {
    s.Enter? ==> s.entry > 0.0 && s.atr > 0.0 && s.buyingPower >= 0.0
  }

  function Fill(a: Account, symbol: string, size: int, entry: real): Account {
    Account(a.cash - Times(size, entry), a.positions + [Position(symbol, size, entry)])
  }

  /** Selling a whole position at its mark. */
  function Close(a: Account, k: nat): Account
    requires k < |a.positions|
  {
    Account(a.cash + Times(a.positions[k].quantity, a.positions[k].mark), a.positions[..k] + a.positions[k + 1..])
  }

  function IndexOf(positions: seq<Position>, symbol: string): (r: Option<nat>)
    ensures r.Some? ==> r.value < |positions| && positions[r.value].symbol == symbol
    ensures r.None? ==> forall k :: 0 <= k < |positions| ==> positions[k].symbol != symbol
  {
    if positions == [] then None
    else if positions[|positions| - 1].symbol == symbol then Some(|positions| - 1)
    else IndexOf(positions[..|positions| - 1], symbol)
  }

  function Next(p: Policy, a: Account, s: Step): Account
    requires p.stopMultiple > 0.0 && ValidStep(s)
  {
    match s
    case Leave(symbol) =>
      var k := IndexOf(a.positions, symbol);
      if k.Some? then Close(a, k.value) else a
    case Enter(symbol, entry, atr, buyingPower, dailyPnl) =>
      var x := ContextFor(a, symbol, entry, atr, buyingPower, dailyPnl);
      ProductPositive(atr, p.stopMultiple);
      var d := Evaluate(p, Buy, x);
      if d.Approved? then Fill(a, symbol, d.proposal.size, entry) else a
  }

  function Exec(p: Policy, a: Account, steps: seq<Step>): Account
    requires p.stopMultiple > 0.0 && forall s <- steps :: ValidStep(s)
  {
    if steps == [] then a else Next(p, Exec(p, a, steps[..|steps| - 1]), steps[|steps| - 1])
  }

  // ---------- the limits ----------

  ghost predicate OnePerSymbol(positions: seq<Position>) {
    forall j, k :: 0 <= j < k < |positions| ==> positions[j].symbol != positions[k].symbol
  }

  ghost predicate LongOnly(positions: seq<Position>) {
    forall q <- positions :: q.quantity >= 1 && q.mark > 0.0
  }

  ghost predicate Within(p: Policy, a: Account, equity: real) {
    && Equity(a) == equity > 0.0
    && OnePerSymbol(a.positions) && LongOnly(a.positions)
    && |a.positions| <= p.maxOpenPositions
    && Gross(a.positions) <= equity * p.maxGrossExposure
    && a.cash >= equity * p.minimumCashReserve
  }

  lemma GrossAppend(positions: seq<Position>, q: Position)
    ensures Gross(positions + [q]) == Gross(positions) + Times(q.quantity, q.mark)
  {
    assert (positions + [q])[..|positions|] == positions;
  }

  lemma {:induction false} GrossRemove(positions: seq<Position>, k: nat)
    requires k < |positions|
    ensures Gross(positions[..k] + positions[k + 1..])
            == Gross(positions) - Times(positions[k].quantity, positions[k].mark)
  {
    var n := |positions| - 1;
    if k < n {
      GrossRemove(positions[..n], k);
      assert positions[..k] + positions[k + 1..] == (positions[..n][..k] + positions[..n][k + 1..]) + [positions[n]];
      GrossAppend(positions[..n][..k] + positions[..n][k + 1..], positions[n]);
    } else {
      assert positions[..k] + positions[k + 1..] == positions[..n];
    }
  }

  lemma {:induction false} GrossNonNegative(positions: seq<Position>)
    requires LongOnly(positions)
    ensures Gross(positions) >= 0.0
  {
    if positions != [] {
      var n := |positions| - 1;
      GrossNonNegative(positions[..n]);
      ProductPositive(positions[n].quantity as real, positions[n].mark);
    }
  }

  /** With all the money in positions, the exposure limit alone refuses every entry. */
  lemma NoCashNoEntry(p: Policy, equity: real, notional: real)
    requires ValidPolicy(p) && equity > 0.0 && notional > 0.0
    ensures equity + notional > equity * p.maxGrossExposure
  {
    ScaleBound(1.0, p.maxGrossExposure, equity);
  }

  lemma FillWithin(p: Policy, a: Account, symbol: string, size: int, entry: real, equity: real)
    requires Within(p, a, equity) && size >= 1 && entry > 0.0 && !Holds(a, symbol)
    requires |a.positions| < p.maxOpenPositions
    requires Gross(a.positions) + Times(size, entry) <= equity * p.maxGrossExposure
    requires a.cash - Times(size, entry) >= equity * p.minimumCashReserve
    ensures Within(p, Fill(a, symbol, size, entry), equity)
  {
    GrossAppend(a.positions, Position(symbol, size, entry));
  }

  lemma SizePositive(size: int, entry: real)
    requires size >= 1 && entry > 0.0
    ensures Times(size, entry) > 0.0
  {
    ProductPositive(size as real, entry);
  }

  /** What the limits say of the account: the exact room an entry of `n` shares has. */
  lemma LimitsLeaveRoom(p: Policy, a: Account, x: Context, s: Step, n: int, equity: real)
    requires ValidPolicy(p) && ValidStep(s) && s.Enter? && s.buyingPower > 0.0 && Within(p, a, equity)
    requires x == ContextFor(a, s.symbol, s.entry, s.atr, s.buyingPower, s.dailyPnl)
    requires n >= 1 && WithinLimits(p, Buy, x, n)
    ensures !Holds(a, s.symbol) && |a.positions| < p.maxOpenPositions
    ensures Gross(a.positions) + Times(n, s.entry) <= equity * p.maxGrossExposure
    ensures a.cash - Times(n, s.entry) >= equity * p.minimumCashReserve
  {
    var notional := Times(n, s.entry);
    SizePositive(n, s.entry);
    ReserveNonNegative(equity, p.minimumCashReserve);
    NoCashNoEntry(p, equity, notional);
    ReserveKept(a.cash, s.buyingPower, Gross(a.positions), notional, equity * p.maxGrossExposure,
      equity * p.minimumCashReserve);
  }

  /** The reserve check binds unless there is no cash at all, and then exposure refuses the entry. */
  lemma ReserveKept(cash: real, buyingPower: real, gross: real, notional: real, cap: real, reserve: real)
    requires buyingPower > 0.0 && cash >= reserve >= 0.0 && cash + gross + notional > cap
    requires Min(cash, buyingPower) == 0.0 || Min(cash, buyingPower) - notional >= reserve
    requires gross + notional <= cap
    ensures cash - notional >= reserve
  {}

  /** An entry either changes nothing or fills the greatest size that fits the budget. */
  lemma EntryEffect(p: Policy, a: Account, x: Context, s: Step)
    requires p.stopMultiple > 0.0 && ValidStep(s) && s.Enter?
    requires x == ContextFor(a, s.symbol, s.entry, s.atr, s.buyingPower, s.dailyPnl) && StopDistance(p, x) > 0.0
    ensures Next(p, a, s) ==
            if Size(p, x) >= 1 && WithinLimits(p, Buy, x, Size(p, x)) then Fill(a, s.symbol, Size(p, x), s.entry) else a
  {
    LimitsDecide(p, Buy, x);
    if Evaluate(p, Buy, x).Approved? { ProposalFields(p, Buy, x); }
  }

  /** The size that an entry fills, with the context it was evaluated in. */
  lemma FilledSize(p: Policy, a: Account, s: Step) returns (x: Context, size: int)
    requires p.stopMultiple > 0.0 && ValidStep(s) && s.Enter? && Next(p, a, s) != a
    ensures x == ContextFor(a, s.symbol, s.entry, s.atr, s.buyingPower, s.dailyPnl) && StopDistance(p, x) > 0.0
    ensures size == Size(p, x) >= 1 && WithinLimits(p, Buy, x, size)
    ensures Next(p, a, s) == Fill(a, s.symbol, size, s.entry)
  {
    x := ContextFor(a, s.symbol, s.entry, s.atr, s.buyingPower, s.dailyPnl);
    ProductPositive(s.atr, p.stopMultiple);
    EntryEffect(p, a, x, s);
    size := Size(p, x);
  }

  /** The loss at the stop fits both the budget of a trade and what the day has left to lose. */
  ghost predicate RoomForLoss(p: Policy, equity: real, dailyPnl: real, loss: real) {
    && loss <= equity * p.riskPerTrade
    && Max(0.0, -dailyPnl) + loss <= equity * p.maxDailyLoss
  }

  lemma SizeHasRoom(p: Policy, x: Context, size: int, stop: real, equity: real, dailyPnl: real)
    requires stop == StopDistance(p, x) > 0.0 && size == Size(p, x) && WithinLimits(p, Buy, x, size)
    requires equity == x.equity && dailyPnl == x.dailyPnl
    ensures RoomForLoss(p, equity, dailyPnl, Times(size, stop))
  {
    SizeIsGreatest(p, x, size);
  }

  lemma OpenedByFill(a: Account, symbol: string, size: int, entry: real)
    requires !Holds(a, symbol)
    ensures var b := Fill(a, symbol, size, entry);
            && b.cash == a.cash - Times(size, entry) && b.positions == a.positions + [Position(symbol, size, entry)]
            && forall q <- a.positions :: q.symbol != symbol
  {}

  /**
   An entry either changes nothing or opens one position in a symbol not held before, at its price and
   paid in cash, of a size whose loss at the stop has room.
  */
  lemma EntryOpens(p: Policy, a: Account, s: Step, stop: real) returns (size: int)
    requires p.stopMultiple > 0.0 && ValidStep(s) && s.Enter? && Next(p, a, s) != a && stop == s.atr * p.stopMultiple
    ensures size >= 1 && RoomForLoss(p, a.cash + Gross(a.positions), s.dailyPnl, Times(size, stop))
    ensures var b := Next(p, a, s);
            && b.cash == a.cash - Times(size, s.entry)
            && b.positions == a.positions + [Position(s.symbol, size, s.entry)]
            && forall q <- a.positions :: q.symbol != s.symbol
  {
    var x;
    x, size := FilledSize(p, a, s);
    SizeHasRoom(p, x, size, stop, a.cash + Gross(a.positions), s.dailyPnl);
    OpenedByFill(a, s.symbol, size, s.entry);
  }

  /** An approved entry leaves exposure, count and cash reserve within policy. */
  lemma EntryWithin(p: Policy, a: Account, s: Step, equity: real)
    requires ValidPolicy(p) && ValidStep(s) && s.Enter? && s.buyingPower > 0.0 && Within(p, a, equity)
    ensures Within(p, Next(p, a, s), equity)
  {
    var x := ContextFor(a, s.symbol, s.entry, s.atr, s.buyingPower, s.dailyPnl);
    ProductPositive(s.atr, p.stopMultiple);
    EntryEffect(p, a, x, s);
    if Size(p, x) >= 1 && WithinLimits(p, Buy, x, Size(p, x)) {
      LimitsLeaveRoom(p, a, x, s, Size(p, x), equity);
      FillWithin(p, a, s.symbol, Size(p, x), s.entry, equity);
    }
  }

  lemma ReserveNonNegative(equity: real, share: real)
    requires equity > 0.0 && share >= 0.0
    ensures equity * share >= 0.0
  {}

  lemma CloseWithin(p: Policy, a: Account, k: nat, equity: real)
    requires Within(p, a, equity) && k < |a.positions|
    ensures Within(p, Close(a, k), equity)
  {
    var q, rest := a.positions[k], a.positions[..k] + a.positions[k + 1..];
    assert q in a.positions;
    SizePositive(q.quantity, q.mark);
    GrossRemove(a.positions, k);
    RemovedKeepsShape(a.positions, k);
  }

  lemma RemovedKeepsShape(positions: seq<Position>, k: nat)
    requires OnePerSymbol(positions) && LongOnly(positions) && k < |positions|
    ensures OnePerSymbol(positions[..k] + positions[k + 1..]) && LongOnly(positions[..k] + positions[k + 1..])
  {
    var rest := positions[..k] + positions[k + 1..];
    assert forall j :: 0 <= j < |rest| ==> rest[j] == positions[if j < k then j else j + 1];
  }

  lemma ExitWithin(p: Policy, a: Account, s: Step, equity: real)
    requires p.stopMultiple > 0.0 && s.Leave? && Within(p, a, equity)
    ensures Within(p, Next(p, a, s), equity)
  {
    var k := IndexOf(a.positions, s.symbol);
    if k.Some? { CloseWithin(p, a, k.value, equity); }
  }

  /**
   Over any run of entries and exits from an account within policy, with buying power above
   zero: equity is unchanged and exposure, position count, one position per symbol and the cash
   reserve stay within policy, whatever symbols, prices and ATRs occur.
  */
  lemma {:induction false} RunStaysWithin(p: Policy, a: Account, steps: seq<Step>, equity: real)
    requires ValidPolicy(p) && Within(p, a, equity)
    requires forall s <- steps :: ValidStep(s) && (s.Enter? ==> s.buyingPower > 0.0)
    ensures Within(p, Exec(p, a, steps), equity)
  {
    if steps != [] {
      var before, s := steps[..|steps| - 1], steps[|steps| - 1];
      assert s in steps && forall r <- before :: r in steps;
      RunStaysWithin(p, a, before, equity);
      var b := Exec(p, a, before);
      if s.Enter? { EntryWithin(p, b, s, equity); } else { ExitWithin(p, b, s, equity); }
    }
  }

  /**
   A step breaks the cash reserve exactly when it is an entry that meets every limit while the
   broker reports no buying power, so that the reserve check is skipped, and costs too much.
  */
  lemma ReserveBrokenExactly(p: Policy, a: Account, s: Step, equity: real)
    requires ValidPolicy(p) && ValidStep(s) && Within(p, a, equity)
    ensures Next(p, a, s).cash < equity * p.minimumCashReserve <==>
              && s.Enter? && s.buyingPower == 0.0
              && var x := ContextFor(a, s.symbol, s.entry, s.atr, s.buyingPower, s.dailyPnl);
                 && StopDistance(p, x) > 0.0 && Size(p, x) >= 1 && WithinLimits(p, Buy, x, Size(p, x))
                 && a.cash - Times(Size(p, x), s.entry) < equity * p.minimumCashReserve
  {
    if s.Leave? {
      ExitWithin(p, a, s, equity);
    } else {
      var x := ContextFor(a, s.symbol, s.entry, s.atr, s.buyingPower, s.dailyPnl);
      ProductPositive(s.atr, p.stopMultiple);
      EntryEffect(p, a, x, s);
      if s.buyingPower > 0.0 { EntryWithin(p, a, s, equity); }
    }
  }

  /** And without buying power it does break: half the cash goes although three quarters are reserved. */
  lemma NoBuyingPowerBreaksReserve(p: Policy, a: Account, s: Step)
    requires ValidPolicy(p) && p.riskPerTrade == 0.1 && p.maxDailyLoss == 0.1 && p.stopMultiple == 1.0
    requires p.maxGrossExposure == 0.5 && p.minimumCashReserve == 0.75
    requires a == Account(1000.0, []) && s == Enter("AAPL", 5.0, 1.0, 0.0, 0.0)
    ensures Within(p, a, 1000.0) && Next(p, a, s).cash == 500.0 < 1000.0 * p.minimumCashReserve
  {
    var x := ContextFor(a, s.symbol, s.entry, s.atr, s.buyingPower, s.dailyPnl);
    assert StopDistance(p, x) == 1.0 && Budget(p, x) == 100.0;
    SizeIsGreatest(p, x, 100);
    SizeIsGreatest(p, x, 101);
    assert Size(p, x) == 100;
    EntryEffect(p, a, x, s);
  }

  // ---------- limits that need atomic steps ----------

  datatype Entry = Entry(symbol: string, size: int, price: real)

  /** What one entry would buy when it is evaluated against the portfolio `a`. */
  function Approved(p: Policy, a: Account, s: Step): seq<Entry>
    requires p.stopMultiple > 0.0 && ValidStep(s)
  {
    if s.Leave? then []
    else
      var x := ContextFor(a, s.symbol, s.entry, s.atr, s.buyingPower, s.dailyPnl);
      ProductPositive(s.atr, p.stopMultiple);
      var d := Evaluate(p, Buy, x);
      if d.Approved? then [Entry(s.symbol, d.proposal.size, s.entry)] else []
  }

  /** Every approved entry, all evaluated against one portfolio before any executes, as concurrent workers may do. */
  function AllApproved(p: Policy, a: Account, steps: seq<Step>): seq<Entry>
    requires p.stopMultiple > 0.0 && forall s <- steps :: ValidStep(s)
  {
    if steps == [] then []
    else AllApproved(p, a, steps[..|steps| - 1]) + Approved(p, a, steps[|steps| - 1])
  }

  function FillAll(a: Account, entries: seq<Entry>): Account {
    if entries == [] then a
    else
      var e := entries[|entries| - 1];
      Fill(FillAll(a, entries[..|entries| - 1]), e.symbol, e.size, e.price)
  }

  function Cost(entries: seq<Entry>): real {
    if entries == [] then 0.0
    else Cost(entries[..|entries| - 1]) + Times(entries[|entries| - 1].size, entries[|entries| - 1].price)
  }

  ghost predicate SoundEntry(a: Account, e: Entry) {
    e.size >= 1 && e.price > 0.0 && !Holds(a, e.symbol)
  }

  lemma ApprovedSound(p: Policy, a: Account, s: Step)
    requires ValidPolicy(p) && ValidStep(s)
    ensures forall e <- Approved(p, a, s) :: SoundEntry(a, e)
  {
    if s.Enter? {
      var x := ContextFor(a, s.symbol, s.entry, s.atr, s.buyingPower, s.dailyPnl);
      ProductPositive(s.atr, p.stopMultiple);
      LimitsDecide(p, Buy, x);
      if Evaluate(p, Buy, x).Approved? { ProposalFields(p, Buy, x); }
    }
  }

  lemma {:induction false} AllApprovedSound(p: Policy, a: Account, steps: seq<Step>)
    requires ValidPolicy(p) && forall s <- steps :: ValidStep(s)
    ensures forall e <- AllApproved(p, a, steps) :: SoundEntry(a, e)
  {
    if steps != [] {
      assert steps[|steps| - 1] in steps && forall s <- steps[..|steps| - 1] :: s in steps;
      AllApprovedSound(p, a, steps[..|steps| - 1]);
      ApprovedSound(p, a, steps[|steps| - 1]);
    }
  }

  function Opened(entries: seq<Entry>): (r: seq<Position>)
    ensures |r| == |entries|
  {
    seq(|entries|, k requires 0 <= k < |entries| => Position(entries[k].symbol, entries[k].size, entries[k].price))
  }

  lemma {:induction false} FillAllIs(a: Account, entries: seq<Entry>)
    ensures FillAll(a, entries).cash == a.cash - Cost(entries)
    ensures FillAll(a, entries).positions == a.positions + Opened(entries)
    ensures Gross(FillAll(a, entries).positions) == Gross(a.positions) + Cost(entries)
  {
    if entries == [] {
      assert a.positions + Opened(entries) == a.positions;
    } else {
      var init, e := entries[..|entries| - 1], entries[|entries| - 1];
      FillAllIs(a, init);
      GrossAppend(FillAll(a, init).positions, Position(e.symbol, e.size, e.price));
      assert Opened(entries) == Opened(init) + [Position(e.symbol, e.size, e.price)];
    }
  }

  ghost predicate DistinctSymbols(entries: seq<Entry>) {
    forall j, k :: 0 <= j < k < |entries| ==> entries[j].symbol != entries[k].symbol
  }

  lemma OpenedSymbols(entries: seq<Entry>)
    ensures OnePerSymbol(Opened(entries)) <==> DistinctSymbols(entries)
  {
    assert forall k :: 0 <= k < |entries| ==> Opened(entries)[k].symbol == entries[k].symbol;
  }

  lemma OnePerSymbolConcat(held: seq<Position>, more: seq<Position>)
    requires OnePerSymbol(held)
    requires forall j, k :: 0 <= j < |held| && 0 <= k < |more| ==> held[j].symbol != more[k].symbol
    ensures OnePerSymbol(held + more) <==> OnePerSymbol(more)
  {
    var n, all := |held|, held + more;
    if OnePerSymbol(all) {
      forall j, k | 0 <= j < k < |more| ensures more[j].symbol != more[k].symbol {
        assert all[n + j] == more[j] && all[n + k] == more[k];
      }
    }
  }

  lemma LongOnlyConcat(held: seq<Position>, more: seq<Position>)
    requires LongOnly(held) && LongOnly(more)
    ensures LongOnly(held + more)
  {
    forall q <- held + more ensures q.quantity >= 1 && q.mark > 0.0 {
      assert q in held || q in more;
    }
  }

  lemma OpenedShape(a: Account, entries: seq<Entry>)
    requires OnePerSymbol(a.positions) && LongOnly(a.positions) && forall e <- entries :: SoundEntry(a, e)
    ensures LongOnly(a.positions + Opened(entries))
    ensures OnePerSymbol(a.positions + Opened(entries)) <==> DistinctSymbols(entries)
  {
    var more := Opened(entries);
    forall k | 0 <= k < |entries|
      ensures SoundEntry(a, entries[k]) && more[k] == Position(entries[k].symbol, entries[k].size, entries[k].price)
    {
      assert entries[k] in entries;
    }
    OpenedSymbols(entries);
    OnePerSymbolConcat(a.positions, more);
    LongOnlyConcat(a.positions, more);
  }

  /** The account after buying for `cost`, against the limits. */
  lemma WithinAfter(p: Policy, a: Account, b: Account, cost: real, bought: nat, distinct: bool, equity: real)
    requires Within(p, a, equity) && b.cash == a.cash - cost && Gross(b.positions) == Gross(a.positions) + cost
    requires |b.positions| == |a.positions| + bought && LongOnly(b.positions)
    requires OnePerSymbol(b.positions) <==> distinct
    ensures Within(p, b, equity) <==>
              && distinct && |a.positions| + bought <= p.maxOpenPositions
              && Gross(a.positions) + cost <= equity * p.maxGrossExposure
              && a.cash - cost >= equity * p.minimumCashReserve
  {}

  /**
   Any number of entries evaluated against one portfolio, and only then executed, leave the account
   within policy exactly when the approved ones are for different symbols and together fit the
   position count, the exposure limit and the cash reserve.
  */
  lemma ConcurrentEntriesExactly(p: Policy, a: Account, steps: seq<Step>, equity: real)
    requires ValidPolicy(p) && Within(p, a, equity) && forall s <- steps :: ValidStep(s)
    ensures var entries := AllApproved(p, a, steps);
            Within(p, FillAll(a, entries), equity) <==>
              && DistinctSymbols(entries)
              && |a.positions| + |entries| <= p.maxOpenPositions
              && Gross(a.positions) + Cost(entries) <= equity * p.maxGrossExposure
              && a.cash - Cost(entries) >= equity * p.minimumCashReserve
  {
    var entries := AllApproved(p, a, steps);
    AllApprovedSound(p, a, steps);
    FillAllIs(a, entries);
    OpenedShape(a, entries);
    WithinAfter(p, a, FillAll(a, entries), Cost(entries), |entries|, DistinctSymbols(entries), equity);
  }

  lemma TwoApproved(p: Policy, a: Account, steps: seq<Step>)
    requires p.stopMultiple > 0.0 && |steps| == 2 && ValidStep(steps[0]) && ValidStep(steps[1])
    ensures forall s <- steps :: ValidStep(s)
    ensures AllApproved(p, a, steps) == Approved(p, a, steps[0]) + Approved(p, a, steps[1])
  {
    assert steps[..1][..0] == [] && steps[..1][0] == steps[0];
    assert AllApproved(p, a, []) + Approved(p, a, steps[0]) == Approved(p, a, steps[0]);
  }

  /** And they can overrun: from cash alone, two first entries exceed a limit of one position. */
  lemma ConcurrentEntriesOverrun(p: Policy, a: Account, steps: seq<Step>)
    requires ValidPolicy(p) && p.maxOpenPositions == 1 && p.riskPerTrade == 0.01 && p.maxDailyLoss == 0.02
    requires p.stopMultiple == 1.0 && p.maxGrossExposure == 0.5 && p.minimumCashReserve == 0.25
    requires a == Account(1000.0, []) && |steps| == 2
    requires steps[0] == Enter("AAPL", 10.0, 1.0, 1000.0, 0.0) && steps[1] == Enter("MSFT", 10.0, 1.0, 1000.0, 0.0)
    ensures forall s <- steps :: ValidStep(s)
    ensures Within(p, a, 1000.0) && |AllApproved(p, a, steps)| == 2
    ensures !Within(p, FillAll(a, AllApproved(p, a, steps)), 1000.0)
  {
    FirstEntryApproved(p, a, "AAPL");
    FirstEntryApproved(p, a, "MSFT");
    TwoApproved(p, a, steps);
    ConcurrentEntriesExactly(p, a, steps, 1000.0);
  }

  lemma FirstEntryApproved(p: Policy, a: Account, symbol: string)
    requires ValidPolicy(p) && p.maxOpenPositions == 1 && p.riskPerTrade == 0.01 && p.maxDailyLoss == 0.02
    requires p.stopMultiple == 1.0 && p.maxGrossExposure == 0.5 && p.minimumCashReserve == 0.25
    requires a == Account(1000.0, [])
    ensures var x := ContextFor(a, symbol, 10.0, 1.0, 1000.0, 0.0);
            StopDistance(p, x) > 0.0 && Evaluate(p, Buy, x).Approved?
  {
    var x := ContextFor(a, symbol, 10.0, 1.0, 1000.0, 0.0);
    assert StopDistance(p, x) == 1.0 && Budget(p, x) == 10.0;
    SizeIsGreatest(p, x, 10);
    SizeIsGreatest(p, x, 11);
    assert Size(p, x) == 10;
    LimitsDecide(p, Buy, x);
  }
}
