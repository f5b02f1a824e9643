/**
 Pre-trade risk evaluation: position size from an ATR stop, account-level limits, and the
 trailing stop.
 */
module RiskEngine {
  import opened MarketData

  datatype Policy = Policy(
    riskPerTrade: real, maxDailyLoss: real, maxConsecutiveLosses: int,
    stopMultiple: real, targetMultiple: real, trailingMultiple: real, minimumRiskReward: real,
    maxGrossExposure: real, minimumCashReserve: real, maxOpenPositions: int)

  /** The field bounds and the validator of the risk policy; the reward ratio has three decimals. */
  ghost predicate ValidPolicy(p: Policy) {
    && 0.0 < p.riskPerTrade <= 1.0 && 0.0 < p.maxDailyLoss <= 1.0
    && 1 <= p.maxConsecutiveLosses <= 100
    && p.stopMultiple > 0.0 && p.targetMultiple > 0.0 && p.trailingMultiple > 0.0
    && p.minimumRiskReward >= 1.0 && (exists k: int :: OnGrid(p.minimumRiskReward, k))
    && 0.0 < p.maxGrossExposure <= 1.0 && 0.0 <= p.minimumCashReserve < 1.0
    && 1 <= p.maxOpenPositions <= 500
    && p.targetMultiple / p.stopMultiple >= p.minimumRiskReward
  }

  predicate OnGrid(x: real, k: int) {
    x * 1000.0 == k as real
  }

  datatype Context = Context(
    entryPrice: real, atr: real, equity: real, dailyPnl: real, consecutiveLosses: int,
    availableCash: real, grossExposure: real, openPositions: int, hasOpenPosition: bool, wouldAverageDown: bool)

  predicate ValidContext(x: Context) {
    && x.entryPrice > 0.0 && x.atr > 0.0 && x.equity > 0.0 && x.consecutiveLosses >= 0
    && x.availableCash >= 0.0 && x.grossExposure >= 0.0 && x.openPositions >= 0
  }

  datatype Reason =
    | AveragingDown | LossStreak | PriceNotPositive | CannotFundOneShare
    | DailyLoss | CashReserve | GrossExposure | OpenPositions

  datatype Proposal = Proposal(
    direction: Direction, entryPrice: real, stopLoss: real, takeProfit: real,
    trailingDistance: real, riskReward: real, size: int, risk: real)

  datatype Decision = NotApplicable | Rejected(reason: Reason) | Approved(proposal: Proposal)

  function StopDistance(p: Policy, x: Context): real {
    x.atr * p.stopMultiple
  }

  function ExpectedMove(p: Policy, x: Context): real {
    x.atr * p.targetMultiple
  }

  function Prices(p: Policy, d: Direction, x: Context): (real, real) {
    if d.Buy? then (x.entryPrice - StopDistance(p, x), x.entryPrice + ExpectedMove(p, x))
    else (x.entryPrice + StopDistance(p, x), x.entryPrice - ExpectedMove(p, x))
  }

  /** Rounding to an integer, ties to even, as the default decimal context does. */
  function HalfEven(x: real): int {
    var f := x.Floor;
    var rest := x - f as real;
    if rest < 0.5 || (rest == 0.5 && f % 2 == 0) then f else f + 1
  }

  function Quantized(x: real): real {
    HalfEven(x * 1000.0) as real / 1000.0
  }

  function Size(p: Policy, x: Context): int
    requires StopDistance(p, x) > 0.0
  {
    FloorQuotient(Budget(p, x), StopDistance(p, x))
  }

  /** The most one position may lose. */
  function Budget(p: Policy, x: Context): real {
    x.equity * p.riskPerTrade
  }

  function FloorQuotient(a: real, b: real): int
    requires b > 0.0
  {
    (a / b).Floor
  }

  function Evaluate(p: Policy, d: Direction, x: Context): Decision
    requires StopDistance(p, x) > 0.0
  {
    if d.Hold? || d.Exit? then NotApplicable
    else if x.wouldAverageDown then Rejected(AveragingDown)
    else if x.consecutiveLosses >= p.maxConsecutiveLosses then Rejected(LossStreak)
    else
      var (stopLoss, takeProfit) := Prices(p, d, x);
      if stopLoss <= 0.0 || takeProfit <= 0.0 then Rejected(PriceNotPositive)
      else
        var size := Size(p, x);
        if size < 1 then Rejected(CannotFundOneShare)
        else
          var risk := Times(size, StopDistance(p, x));
          match Breach(p, x, risk, Times(size, x.entryPrice))
          case Some(reason) => Rejected(reason)
          case None => Approved(Proposal(d, x.entryPrice, stopLoss, takeProfit, x.atr * p.trailingMultiple,
                                         RewardRatio(p, x), size, risk))
  }

  /** The first account-level limit that a position of this risk and cost would break. */
  function Breach(p: Policy, x: Context, risk: real, notional: real): Option<Reason> {
    if Max(0.0, -x.dailyPnl) + risk > x.equity * p.maxDailyLoss then Some(DailyLoss)
    else if x.availableCash != 0.0 && x.availableCash - notional < x.equity * p.minimumCashReserve then
      Some(CashReserve)
    else if x.grossExposure + notional > x.equity * p.maxGrossExposure then Some(GrossExposure)
    else if !x.hasOpenPosition && x.openPositions >= p.maxOpenPositions then Some(OpenPositions)
    else None
  }

  function Times(n: int, x: real): real {
    n as real * x
  }

  function RewardRatio(p: Policy, x: Context): real
    requires StopDistance(p, x) > 0.0
  {
    Quantized(ExpectedMove(p, x) / StopDistance(p, x))
  }

  // ---------- arithmetic ----------

  lemma ProductPositive(a: real, b: real)
    requires a > 0.0 && b > 0.0
    ensures a * b > 0.0
  {}

  lemma StopIsPositive(p: Policy, x: Context)
    requires ValidPolicy(p) && ValidContext(x)
    ensures StopDistance(p, x) > 0.0 && ExpectedMove(p, x) > 0.0
  {
    ProductPositive(x.atr, p.stopMultiple);
    ProductPositive(x.atr, p.targetMultiple);
  }

  lemma ScaleBound(q: real, n: real, s: real)
    requires s > 0.0
    ensures n <= q <==> n * s <= q * s
  {
    if n <= q { assert (q - n) * s >= 0.0; } else { assert (n - q) * s > 0.0; }
  }

  /** The floor of a quotient is the greatest integer whose multiple of the divisor fits. */
  lemma FloorFits(budget: real, stop: real, n: int)
    requires stop > 0.0
    ensures Times(n, stop) <= budget <==> n <= FloorQuotient(budget, stop)
  {
    var q := budget / stop;
    assert q * stop == budget;
    ScaleBound(q, n as real, stop);
    assert n as real <= q <==> n <= q.Floor;
  }

  lemma HalfEvenAtLeast(x: real, k: int)
    requires k as real <= x
    ensures k <= HalfEven(x)
  {}

  lemma RatioCancels(a: real, t: real, s: real)
    requires a > 0.0 && s > 0.0
    ensures a * s > 0.0 && (a * t) / (a * s) == t / s
  {
    ProductPositive(a, s);
    var q := t / s;
    assert q * s == t;
    assert q * (a * s) == a * t by { assert q * (a * s) == a * (q * s); }
    QuotientIs(a * t, a * s, q);
  }

  lemma QuotientIs(n: real, d: real, q: real)
    requires d > 0.0 && q * d == n
    ensures n / d == q
  {
    var r := n / d;
    assert r * d == n;
    if r != q { assert (r - q) * d == 0.0; }
  }

  // ---------- what a decision means ----------

  /** The greatest position whose risk fits the per-trade budget: exactly the sizes up to it fit. */
  ghost predicate FitsBudget(p: Policy, x: Context, n: int) {
    Times(n, StopDistance(p, x)) <= Budget(p, x)
  }

  /** Every account-level limit at a given size, in no particular order. */
  ghost predicate WithinLimits(p: Policy, d: Direction, x: Context, n: int) {
    && (d.Buy? || d.Sell?)
    && Prices(p, d, x).0 > 0.0 && Prices(p, d, x).1 > 0.0
    && !x.wouldAverageDown && x.consecutiveLosses < p.maxConsecutiveLosses
    && Max(0.0, -x.dailyPnl) + Times(n, StopDistance(p, x)) <= x.equity * p.maxDailyLoss
    && (x.availableCash == 0.0 || x.availableCash - Times(n, x.entryPrice) >= x.equity * p.minimumCashReserve)
    && x.grossExposure + Times(n, x.entryPrice) <= x.equity * p.maxGrossExposure
    && (x.hasOpenPosition || x.openPositions < p.maxOpenPositions)
  }

  lemma SizeIsGreatest(p: Policy, x: Context, n: int)
    requires StopDistance(p, x) > 0.0
    ensures FitsBudget(p, x, n) <==> n <= Size(p, x)
  {
    FloorFits(Budget(p, x), StopDistance(p, x), n);
  }

  lemma LimitsDecide(p: Policy, d: Direction, x: Context)
    requires StopDistance(p, x) > 0.0
    ensures Evaluate(p, d, x).Approved? <==> Size(p, x) >= 1 && WithinLimits(p, d, x, Size(p, x))
  {
    NoBreach(p, x, Times(Size(p, x), StopDistance(p, x)), Times(Size(p, x), x.entryPrice));
  }

  lemma NoBreach(p: Policy, x: Context, risk: real, notional: real)
    ensures Breach(p, x, risk, notional).None? <==>
              && Max(0.0, -x.dailyPnl) + risk <= x.equity * p.maxDailyLoss
              && (x.availableCash == 0.0 || x.availableCash - notional >= x.equity * p.minimumCashReserve)
              && x.grossExposure + notional <= x.equity * p.maxGrossExposure
              && (x.hasOpenPosition || x.openPositions < p.maxOpenPositions)
  {}

  /** Where the figures of a proposal come from. */
  ghost predicate IsProposal(q: Proposal, p: Policy, d: Direction, x: Context)
    requires StopDistance(p, x) > 0.0
  {
    && q.size == Size(p, x) && q.direction == d && q.riskReward == RewardRatio(p, x) && q.entryPrice == x.entryPrice
    && q.stopLoss == Prices(p, d, x).0 > 0.0 && q.takeProfit == Prices(p, d, x).1 > 0.0
    && q.risk == Times(q.size, StopDistance(p, x)) && q.trailingDistance == x.atr * p.trailingMultiple
    && (d.Buy? || d.Sell?)
  }

  lemma ProposalFields(p: Policy, d: Direction, x: Context)
    requires StopDistance(p, x) > 0.0 && Evaluate(p, d, x).Approved?
    ensures IsProposal(Evaluate(p, d, x).proposal, p, d, x)
  {}

  /**
   An entry is approved exactly when some positive size fits the budget and the greatest such
   size meets every limit; the approved size is that one, and the rounded reward ratio still
   satisfies the policy.
  */
  lemma ApprovedExactly(p: Policy, d: Direction, x: Context, size: int)
    requires ValidPolicy(p) && ValidContext(x)
    requires FitsBudget(p, x, size) && !FitsBudget(p, x, size + 1)
    ensures StopDistance(p, x) > 0.0
    ensures forall n: int :: FitsBudget(p, x, n) <==> n <= size
    ensures Evaluate(p, d, x).Approved? <==> size >= 1 && WithinLimits(p, d, x, size)
    ensures Evaluate(p, d, x).Approved? ==>
              var q := Evaluate(p, d, x).proposal;
              q.size == size && q.direction == d && q.riskReward >= p.minimumRiskReward >= 1.0
  {
    StopIsPositive(p, x);
    SizeIsGreatest(p, x, size);
    SizeIsGreatest(p, x, size + 1);
    forall n: int ensures FitsBudget(p, x, n) <==> n <= size {
      SizeIsGreatest(p, x, n);
    }
    LimitsDecide(p, d, x);
    if Evaluate(p, d, x).Approved? {
      ProposalFields(p, d, x);
      RewardSurvivesRounding(p, x);
    }
  }

  lemma QuantizedAtLeast(x: real, y: real, k: int)
    requires y <= x && OnGrid(y, k)
    ensures Quantized(x) >= y
  {
    HalfEvenAtLeast(x * 1000.0, k);
  }

  lemma RewardSurvivesRounding(p: Policy, x: Context)
    requires ValidPolicy(p) && ValidContext(x) && StopDistance(p, x) > 0.0
    ensures RewardRatio(p, x) >= p.minimumRiskReward
  {
    RatioCancels(x.atr, p.targetMultiple, p.stopMultiple);
    var k: int :| OnGrid(p.minimumRiskReward, k);
    QuantizedAtLeast(ExpectedMove(p, x) / StopDistance(p, x), p.minimumRiskReward, k);
  }

  /** Rounding goes to the nearest integer, and from the middle of two to the even one. */
  lemma HalfEvenNearest(x: real)
    ensures Abs(HalfEven(x) as real - x) <= 0.5
    ensures Abs(HalfEven(x) as real - x) == 0.5 ==> HalfEven(x) % 2 == 0
  {}

  lemma QuantizedNear(x: real)
    ensures Abs(Quantized(x) - x) <= 0.0005
  {
    HalfEvenNearest(x * 1000.0);
  }

  /** The stop is on the losing side and the target on the winning side of the entry, and both are positive. */
  lemma PricesBracketEntry(p: Policy, d: Direction, x: Context)
    requires ValidPolicy(p) && ValidContext(x) && StopDistance(p, x) > 0.0 && Evaluate(p, d, x).Approved?
    ensures var q := Evaluate(p, d, x).proposal;
            && q.stopLoss > 0.0 && q.takeProfit > 0.0
            && if d.Buy? then q.stopLoss < x.entryPrice < q.takeProfit else q.takeProfit < x.entryPrice < q.stopLoss
  {
    StopIsPositive(p, x);
  }

  lemma RatioNear(reward: real, move: real, stop: real)
    requires stop > 0.0 && reward == Quantized(move / stop)
    ensures Abs(reward - move / stop) <= 0.0005
  {
    QuantizedNear(move / stop);
  }

  lemma PriceDistances(d: Direction, entry: real, stop: real, move: real, prices: (real, real))
    requires stop > 0.0 && move > 0.0
    requires prices == if d.Buy? then (entry - stop, entry + move) else (entry + stop, entry - move)
    ensures Abs(entry - prices.0) == stop && Abs(prices.1 - entry) == move
  {}

  /** Stop and target lie at the policy's multiples of the average range from the entry. */
  ghost predicate PricesLie(q: Proposal, p: Policy, x: Context) {
    && q.entryPrice == x.entryPrice && Abs(q.entryPrice - q.stopLoss) == x.atr * p.stopMultiple > 0.0
    && Abs(q.takeProfit - q.entryPrice) == x.atr * p.targetMultiple
    && q.trailingDistance == x.atr * p.trailingMultiple
  }

  lemma ProposalLies(q: Proposal, p: Policy, d: Direction, x: Context, stop: real, move: real)
    requires stop == StopDistance(p, x) > 0.0 && move == ExpectedMove(p, x) > 0.0 && IsProposal(q, p, d, x)
    ensures Abs(q.entryPrice - q.stopLoss) == stop && Abs(q.takeProfit - q.entryPrice) == move
  {
    PriceDistances(d, x.entryPrice, stop, move, Prices(p, d, x));
  }

  lemma ProposalPrices(p: Policy, d: Direction, x: Context, q: Proposal)
    requires p.stopMultiple > 0.0 && p.targetMultiple > 0.0 && x.atr > 0.0
    requires StopDistance(p, x) > 0.0 && Evaluate(p, d, x) == Approved(q)
    ensures PricesLie(q, p, x)
  {
    ProductPositive(x.atr, p.targetMultiple);
    ProposalFields(p, d, x);
    ProposalLies(q, p, d, x, StopDistance(p, x), ExpectedMove(p, x));
  }

  lemma LastShare(size: int, loss: real, budget: real)
    requires loss > 0.0 && size == FloorQuotient(budget, loss)
    ensures Times(size, loss) <= budget < Times(size + 1, loss)
  {
    FloorFits(budget, loss, size);
    FloorFits(budget, loss, size + 1);
  }

  /** The reward ratio is that of the prices, up to rounding. */
  ghost predicate RewardFits(q: Proposal, gain: real, loss: real) {
    && gain == Abs(q.takeProfit - q.entryPrice) && loss == Abs(q.entryPrice - q.stopLoss) > 0.0
    && Abs(q.riskReward - gain / loss) <= 0.0005
  }

  /** The risk is what the whole position loses at the stop: within the budget, where one share more is not. */
  ghost predicate RiskFits(q: Proposal, loss: real, budget: real) {
    && loss == Abs(q.entryPrice - q.stopLoss)
    && q.risk == Times(q.size, loss) <= budget < Times(q.size + 1, loss)
  }

  lemma RewardOf(q: Proposal, p: Policy, d: Direction, x: Context, gain: real, loss: real)
    requires loss == StopDistance(p, x) > 0.0 && gain == ExpectedMove(p, x) > 0.0 && IsProposal(q, p, d, x)
    ensures RewardFits(q, gain, loss)
  {
    ProposalLies(q, p, d, x, loss, gain);
    RatioNear(q.riskReward, gain, loss);
  }

  lemma ProposalReward(p: Policy, d: Direction, x: Context, q: Proposal)
    requires p.stopMultiple > 0.0 && p.targetMultiple > 0.0 && x.atr > 0.0
    requires StopDistance(p, x) > 0.0 && Evaluate(p, d, x) == Approved(q)
    ensures RewardFits(q, x.atr * p.targetMultiple, x.atr * p.stopMultiple)
  {
    ProductPositive(x.atr, p.targetMultiple);
    ProposalFields(p, d, x);
    RewardOf(q, p, d, x, x.atr * p.targetMultiple, x.atr * p.stopMultiple);
  }

  lemma RiskOf(q: Proposal, p: Policy, d: Direction, x: Context, loss: real, budget: real)
    requires loss == StopDistance(p, x) > 0.0 && budget == Budget(p, x) && IsProposal(q, p, d, x)
    ensures RiskFits(q, loss, budget)
  {
    LastShare(q.size, StopDistance(p, x), Budget(p, x));
  }

  lemma ProposalRisk(p: Policy, d: Direction, x: Context, q: Proposal)
    requires StopDistance(p, x) > 0.0 && Evaluate(p, d, x) == Approved(q)
    ensures RiskFits(q, x.atr * p.stopMultiple, x.equity * p.riskPerTrade)
  {
    ProposalFields(p, d, x);
    RiskOf(q, p, d, x, x.atr * p.stopMultiple, x.equity * p.riskPerTrade);
  }

  /** The distances of stop and target from the entry, and what a position risks and costs. */
  datatype Sizing = Sizing(stop: real, move: real, risk: real, notional: real)

  predicate Breaks(p: Policy, d: Direction, x: Context, z: Sizing, reason: Reason) {
    match reason
    case AveragingDown => x.wouldAverageDown
    case LossStreak => x.consecutiveLosses >= p.maxConsecutiveLosses
    case PriceNotPositive => x.entryPrice <= (if d.Buy? then z.stop else z.move)
    case CannotFundOneShare => z.stop > x.equity * p.riskPerTrade
    case DailyLoss => z.risk > x.equity * p.maxDailyLoss + Min(0.0, x.dailyPnl)
    case CashReserve =>
      x.availableCash != 0.0 && x.availableCash - z.notional < x.equity * p.minimumCashReserve
    case GrossExposure => x.grossExposure + z.notional > x.equity * p.maxGrossExposure
    case OpenPositions => !x.hasOpenPosition && x.openPositions >= p.maxOpenPositions
  }

  lemma OneShareIsTooMuch(size: int, loss: real, budget: real)
    requires loss > 0.0 && size == FloorQuotient(budget, loss)
    ensures size < 1 <==> loss > budget
  {
    FloorFits(budget, loss, 1);
  }

  lemma EvaluateBreaks(p: Policy, d: Direction, x: Context, z: Sizing)
    requires StopDistance(p, x) > 0.0 && (d.Buy? || d.Sell?) && x.entryPrice > 0.0 && z.move > 0.0
    requires z.stop == StopDistance(p, x) && z.move == ExpectedMove(p, x)
    requires z.risk == Times(Size(p, x), StopDistance(p, x)) && z.notional == Times(Size(p, x), x.entryPrice)
    requires Size(p, x) < 1 <==> z.stop > Budget(p, x)
    ensures Evaluate(p, d, x).Approved? <==> forall r: Reason :: !Breaks(p, d, x, z, r)
    ensures Evaluate(p, d, x).Rejected? ==>
              var reason := Evaluate(p, d, x).reason;
              Breaks(p, d, x, z, reason) && forall r: Reason :: Rank(r) < Rank(reason) ==> !Breaks(p, d, x, z, r)
  {
    if Evaluate(p, d, x).Rejected? {
      var reason := Evaluate(p, d, x).reason;
      assert Breaks(p, d, x, z, reason);
    }
  }

  /** The order in which the limits are checked. */
  function Rank(reason: Reason): int {
    match reason
    case AveragingDown => 0
    case LossStreak => 1
    case PriceNotPositive => 2
    case CannotFundOneShare => 3
    case DailyLoss => 4
    case CashReserve => 5
    case GrossExposure => 6
    case OpenPositions => 7
  }

  /** Exits and holds are not evaluated; an entry that breaks no limit is approved, any other refused for its first. */
  lemma DecisionIsFirstBreak(p: Policy, d: Direction, x: Context, z: Sizing)
    requires ValidPolicy(p) && ValidContext(x) && StopDistance(p, x) > 0.0
    requires z.stop == x.atr * p.stopMultiple && z.move == x.atr * p.targetMultiple
    requires z.risk == Size(p, x) as real * z.stop && z.notional == Size(p, x) as real * x.entryPrice
    ensures Evaluate(p, d, x).NotApplicable? <==> d.Hold? || d.Exit?
    ensures Evaluate(p, d, x).Approved? <==> (d.Buy? || d.Sell?) && forall r: Reason :: !Breaks(p, d, x, z, r)
    ensures Evaluate(p, d, x).Rejected? ==>
              var reason := Evaluate(p, d, x).reason;
              Breaks(p, d, x, z, reason) && forall r: Reason :: Rank(r) < Rank(reason) ==> !Breaks(p, d, x, z, r)
  {
    StopIsPositive(p, x);
    OneShareIsTooMuch(Size(p, x), StopDistance(p, x), Budget(p, x));
    if d.Buy? || d.Sell? { EvaluateBreaks(p, d, x, z); }
  }

  // ---------- trailing stop ----------

  datatype Mark = Mark(extreme: real, atr: real)

  /** The stop one mark alone would ask for. */
  function CandidateStop(d: Direction, m: Mark, multiple: real): real {
    if d.Buy? then m.extreme - m.atr * multiple else m.extreme + m.atr * multiple
  }

  /** None where the engine raises: only entries have a trailing stop. */
  function NextStop(d: Direction, stop: real, m: Mark, multiple: real): Option<real> {
    match d
    case Buy => Some(Max(stop, CandidateStop(d, m, multiple)))
    case Sell => Some(Min(stop, CandidateStop(d, m, multiple)))
    case _ => None
  }

  function Trail(d: Direction, stop: real, marks: seq<Mark>, multiple: real): real
    requires d.Buy? || d.Sell?
  {
    if marks == [] then stop
    else NextStop(d, Trail(d, stop, marks[..|marks| - 1], multiple), marks[|marks| - 1], multiple).value
  }

  /** `a` protects at least as much as `b`. */
  predicate NoWider(d: Direction, a: real, b: real) {
    if d.Buy? then a >= b else a <= b
  }

  /** A mark either leaves the stop or moves it to the multiple of the average range behind the extreme. */
  lemma StopTrails(d: Direction, stop: real, m: Mark, multiple: real)
    requires d.Buy? || d.Sell?
    ensures var r := NextStop(d, stop, m, multiple);
            && r.Some?
            && (r.value == stop
                || r.value == (if d.Buy? then m.extreme - m.atr * multiple else m.extreme + m.atr * multiple))
            && (d.Buy? ==> r.value >= stop && m.extreme - r.value <= m.atr * multiple)
            && (d.Sell? ==> r.value <= stop && r.value - m.extreme <= m.atr * multiple)
  {}

  /** Over any run the stop never widens, and ends at the tightest of the start and all candidates. */
  lemma {:induction false} TrailIsTightest(d: Direction, stop: real, marks: seq<Mark>, multiple: real)
    requires d.Buy? || d.Sell?
    ensures var r := Trail(d, stop, marks, multiple);
            && NoWider(d, r, stop)
            && (forall m <- marks :: NoWider(d, r, CandidateStop(d, m, multiple)))
            && (r == stop || exists m <- marks :: r == CandidateStop(d, m, multiple))
  {
    if marks != [] {
      var before, m := marks[..|marks| - 1], marks[|marks| - 1];
      TrailIsTightest(d, stop, before, multiple);
      assert m in marks && before + [m] == marks;
      assert forall x <- before :: x in marks;
    }
  }
}
