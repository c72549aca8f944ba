/** The execution optimizer: queue edge, fill prediction, slippage guard and order management
    for one quote, and how the decision moves when the quote gets worse. */
module ExecutionOptimizer {
  import opened Basics
  import opened Grid

  const PRICE_UNIT: real := 0.00000001

  datatype Side = Buy | Sell

  /** One row of the book; rows that are not price and size pairs are skipped. */
  datatype Level = Malformed | Level(price: real, size: real)

  datatype Quote = Quote(
    markPrice: real,
    bestBid: real,
    bestAsk: real,
    lastPrice: real,
    bids: seq<Level>,
    asks: seq<Level>,
    queuePriorityBias: real,
    incomingFlow: real,
    tapeAcceleration: real,
    freshnessMs: real,
    latencyMs: real,
    spreadBps: real,
    depthImbalance: real,
    volumeImbalance: real,
    availableDepthUsd: real,
    fillProbability: real)

  datatype Desk = Desk(
    maxSpreadBps: real,
    maxLatencyMs: real,
    minDepthCover: real,
    maxFreshnessMs: real,
    minFill: real,
    cancelBelow: real,
    replaceBelow: real)

  const DEFAULT_DESK: Desk := Desk(12.0, 350.0, 1.4, 45000.0, 0.5, 0.4, 0.7)

  function Clamp(value: real, low: real, high: real): real {
    MaxReal(low, MinReal(high, value))
  }

  /** Rounding to six decimals, ties to even. */
  function Round6(x: real): real {
    RoundHalfEven(x * 1000000.0) as real / 1000000.0
  }

  lemma Round6Monotone(x: real, y: real)
    requires x <= y
    ensures Round6(x) <= Round6(y)
  {
    RoundHalfEvenMonotone(x * 1000000.0, y * 1000000.0);
  }

  // ------------------------------------------------------------ queue edge

  function LevelWeight(i: nat): real {
    if i == 0 then 1.0 else if i == 1 then 0.35 else 0.15
  }

  function LevelNotional(l: Level, i: nat): real {
    if l.Malformed? || l.price <= 0.0 || l.size <= 0.0 then 0.0 else l.price * l.size * LevelWeight(i)
  }

  /** Weighted notional of the first `n` rows. */
  function WeightedNotional(levels: seq<Level>, n: nat): (total: real)
    requires n <= |levels|
    ensures total >= 0.0
  {
    if n == 0 then 0.0 else WeightedNotional(levels, n - 1) + LevelNotional(levels[n - 1], n - 1)
  }

  function Bias(q: Quote): real {
    Clamp(q.queuePriorityBias, 0.35, 1.0)
  }

  function Prioritised(weighted: real, bias: real): real {
    MaxReal(0.0, weighted * (0.78 + bias * 0.22))
  }

  function SideLevels(q: Quote, side: Side): seq<Level> {
    if side == Buy then q.bids else q.asks
  }

  /** The queue ahead: the first three rows, discounted for priority. */
  function QueueAhead(levels: seq<Level>, bias: real): real {
    Prioritised(WeightedNotional(levels, if |levels| < 3 then |levels| else 3), bias)
  }

  method QueueAheadUsd(levels: seq<Level>, bias: real) returns (ahead: real)
    ensures ahead == QueueAhead(levels, bias)
  {
    if levels == [] {
      EmptyBookHasNoQueue(bias);
      return 0.0;
    }
    var weighted := 0.0;
    var n := if |levels| < 3 then |levels| else 3;
    for i := 0 to n
      invariant weighted == WeightedNotional(levels, i)
    {
      var l := levels[i];
      if l.Malformed? {
        continue;
      }
      if l.price <= 0.0 || l.size <= 0.0 {
        continue;
      }
      weighted := weighted + l.price * l.size * LevelWeight(i);
    }
    ahead := Prioritised(weighted, bias);
  }

  lemma EmptyBookHasNoQueue(bias: real)
    ensures QueueAhead([], bias) == 0.0
  {
    assert 0.0 * (0.78 + bias * 0.22) == 0.0;
  }

  function ReferencePrice(q: Quote): real {
    if q.markPrice > 0.0 then q.markPrice
    else if q.bestBid > 0.0 && q.bestAsk > 0.0 then (q.bestBid + q.bestAsk) / 2.0
    else q.lastPrice
  }

  function IncomingFlow(flow: real, acceleration: real, reference: real): real {
    if flow > 0.0 then flow else MaxReal(0.0, acceleration * MaxReal(reference, 0.0))
  }

  function Staleness(q: Quote): real {
    Clamp(MaxReal(0.0, q.freshnessMs) / 60000.0, 0.0, 1.0)
  }

  function RawEdge(flow: real, anchor: real): real
    requires anchor > 0.0
  {
    if flow > 0.0 then MinReal(1.0, flow / anchor) else 0.0
  }

  function Discounted(raw: real, weight: real, freshness: real): real {
    raw * weight * freshness
  }

  function Anchor(ahead: real, notional: real): (anchor: real)
    ensures anchor >= 1.0
  {
    MaxReal(1.0, MaxReal(ahead, MaxReal(1.0, notional) * 0.65))
  }

  /** The edge against a queue: flow over the larger of the queue and most of the order. */
  function EdgeAgainst(ahead: real, flow: real, notional: real, weight: real, freshness: real): real {
    Round6(Clamp(Discounted(RawEdge(flow, Anchor(ahead, notional)), weight, freshness), 0.0, 1.0))
  }

  function QueueEdge(q: Quote, side: Side, notional: real): real {
    EdgeAgainst(QueueAhead(SideLevels(q, side), Bias(q)),
                IncomingFlow(q.incomingFlow, q.tapeAcceleration, ReferencePrice(q)),
                notional, 0.58 + Bias(q) * 0.42, 1.0 - Staleness(q) * 0.22)
  }

  function DepthCover(depth: real, notional: real): real {
    if notional > 0.0 then MaxReal(0.0, depth) / MaxReal(notional, 0.000000001) else 0.0
  }

  /** The two readings that set the order against the market. */
  datatype Signals = Signals(queueEdge: real, depthCover: real)

  function Measure(q: Quote, side: Side, notional: real): Signals {
    Signals(QueueEdge(q, side, notional), DepthCover(q.availableDepthUsd, notional))
  }

  // ------------------------------------------------------------ volatility and fill prediction

  /** How far the spread moves the volatility score: it counts by magnitude. */
  function SpreadMagnitude(spread: real): real {
    Clamp(AbsReal(spread) / 12.0, 0.0, 1.0)
  }

  /** How far the spread is charged elsewhere: only a positive one costs. */
  function SpreadCost(spread: real): real {
    Clamp(MaxReal(0.0, spread) / 12.0, 0.0, 1.0)
  }

  function Pressure(q: Quote): (p: real)
    ensures 0.0 <= p <= 0.66
  {
    var depth, volume := AbsReal(q.depthImbalance), AbsReal(q.volumeImbalance);
    Clamp(AbsReal(depth - volume), 0.0, 1.0) * 0.31 + Clamp((depth + volume) / 2.0, 0.0, 1.0) * 0.17 + Staleness(q) * 0.18
  }

  function Volatility(q: Quote): (v: real)
    ensures 0.0 <= v <= 1.0
  {
    Clamp(SpreadMagnitude(q.spreadBps) * 0.34 + Pressure(q), 0.0, 1.0)
  }

  function FlowBonus(q: Quote, side: Side): real {
    Clamp(if side == Sell then -q.volumeImbalance else q.volumeImbalance, -1.0, 1.0) * 0.08
  }

  function LatencyPenalty(q: Quote): real {
    Clamp(MaxReal(0.0, q.latencyMs) / 350.0, 0.0, 1.0)
  }

  datatype Prediction = Prediction(baseline: real, fill: real, volatility: real, depthCover: real)

  /** The fill estimate before clamping and rounding. */
  function RawFill(q: Quote, side: Side, sig: Signals): real {
    Clamp(q.fillProbability, 0.0, 1.0) * 0.32
    + sig.queueEdge * 0.32
    + Clamp(sig.depthCover / 4.0, 0.0, 1.0) * 0.16
    + (1.0 - SpreadCost(q.spreadBps)) * 0.12
    + FlowBonus(q, side)
    - Volatility(q) * 0.18
    - LatencyPenalty(q) * 0.12
  }

  function Predict(q: Quote, side: Side, sig: Signals): Prediction {
    Prediction(Round6(Clamp(q.fillProbability, 0.0, 1.0)), Round6(Clamp(RawFill(q, side, sig), 0.0, 1.0)),
               Round6(Volatility(q)), Round6(sig.depthCover))
  }

  function SpreadCharge(spread: real, volatility: real): real {
    spread * (0.42 + volatility * 0.58)
  }

  /** The expected slippage, which is reported beside the prediction. */
  function SlippageFor(spread: real, volatility: real, depthCover: real, latency: real): real {
    MaxReal(0.2, SpreadCharge(spread, volatility) + MaxReal(0.0, 1.35 - depthCover) * 2.2
             + MaxReal(0.0, latency - 80.0) / 180.0)
  }

  function ExpectedSlippage(q: Quote, sig: Signals): real {
    Round6(SlippageFor(MaxReal(0.0, q.spreadBps), Volatility(q), sig.depthCover, MaxReal(0.0, q.latencyMs)))
  }

  // ------------------------------------------------------------ the guard

  datatype Reason = SpreadTooWide | VolatilityTooHigh | DepthTooThin | LatencyTooHigh | TooStale | FillTooLow

  /** When the guard gives each reason. */
  predicate Blocks(r: Reason, q: Quote, p: Prediction, desk: Desk) {
    match r
    case SpreadTooWide => MaxReal(0.0, q.spreadBps) > desk.maxSpreadBps
    case VolatilityTooHigh => p.volatility > 0.82
    case DepthTooThin => p.depthCover < desk.minDepthCover
    case LatencyTooHigh => MaxReal(0.0, q.latencyMs) > desk.maxLatencyMs
    case TooStale => MaxReal(0.0, q.freshnessMs) > desk.maxFreshnessMs
    case FillTooLow => Clamp(p.fill, 0.0, 1.0) < desk.minFill
  }

  predicate Allowed(q: Quote, p: Prediction, desk: Desk) {
    && !Blocks(SpreadTooWide, q, p, desk) && !Blocks(VolatilityTooHigh, q, p, desk)
    && !Blocks(DepthTooThin, q, p, desk) && !Blocks(LatencyTooHigh, q, p, desk)
    && !Blocks(TooStale, q, p, desk) && !Blocks(FillTooLow, q, p, desk)
  }

  function RiskScore(q: Quote, p: Prediction): real {
    Round6(Clamp(MaxReal(0.0, q.spreadBps) / 18.0 * 0.24
                 + p.volatility * 0.3
                 + MaxReal(0.0, 1.4 - p.depthCover) * 0.22
                 + MinReal(1.0, MaxReal(0.0, q.latencyMs) / 400.0) * 0.14
                 + MinReal(1.0, MaxReal(0.0, q.freshnessMs) / 60000.0) * 0.1, 0.0, 1.0))
  }

  /** `reasons` lists what applies among the reasons looked at so far. */
  ghost predicate Lists(reasons: seq<Reason>, seen: set<Reason>, q: Quote, p: Prediction, desk: Desk) {
    forall r :: r in reasons <==> r in seen && Blocks(r, q, p, desk)
  }

  /** One look at the market: the reason is noted when it applies. */
  method Note(reasons: seq<Reason>, r: Reason, applies: bool, ghost seen: set<Reason>, ghost q: Quote,
              ghost p: Prediction, ghost desk: Desk)
    returns (noted: seq<Reason>)
    requires Lists(reasons, seen, q, p, desk) && applies == Blocks(r, q, p, desk)
    ensures Lists(noted, seen + {r}, q, p, desk)
  {
    noted := reasons;
    if applies {
      noted := reasons + [r];
    }
  }

  lemma AllowedIff(reasons: seq<Reason>, seen: set<Reason>, q: Quote, p: Prediction, desk: Desk)
    requires Lists(reasons, seen, q, p, desk)
    requires seen == {SpreadTooWide, VolatilityTooHigh, DepthTooThin, LatencyTooHigh, TooStale, FillTooLow}
    ensures forall r :: r in reasons <==> Blocks(r, q, p, desk)
    ensures reasons == [] <==> Allowed(q, p, desk)
  {
    if reasons != [] {
      assert reasons[0] in reasons;
    }
  }

  /** The guard lists exactly the reasons that apply, and allows when there are none. */
  method SlippageGuard(q: Quote, p: Prediction, desk: Desk) returns (allowed: bool, reasons: seq<Reason>)
    ensures forall r :: r in reasons <==> Blocks(r, q, p, desk)
    ensures allowed == Allowed(q, p, desk)
  {
    reasons := Note([], SpreadTooWide, MaxReal(0.0, q.spreadBps) > desk.maxSpreadBps, {}, q, p, desk);
    ghost var seen := {SpreadTooWide};
    reasons := Note(reasons, VolatilityTooHigh, p.volatility > 0.82, seen, q, p, desk);
    seen := seen + {VolatilityTooHigh};
    reasons := Note(reasons, DepthTooThin, p.depthCover < desk.minDepthCover, seen, q, p, desk);
    seen := seen + {DepthTooThin};
    reasons := Note(reasons, LatencyTooHigh, MaxReal(0.0, q.latencyMs) > desk.maxLatencyMs, seen, q, p, desk);
    seen := seen + {LatencyTooHigh};
    reasons := Note(reasons, TooStale, MaxReal(0.0, q.freshnessMs) > desk.maxFreshnessMs, seen, q, p, desk);
    seen := seen + {TooStale};
    reasons := Note(reasons, FillTooLow, Clamp(p.fill, 0.0, 1.0) < desk.minFill, seen, q, p, desk);
    AllowedIff(reasons, seen + {FillTooLow}, q, p, desk);
    allowed := reasons == [];
  }

  // ------------------------------------------------------------ order management

  datatype Action = Cancel | Replace | Keep

  datatype Plan = Plan(action: Action, orderType: string, limitPrice: Option<real>, priceMoved: bool)

  /** The live order; `passive` says whether its style is one of the passive ones. */
  datatype LiveOrder = LiveOrder(passive: bool, orderType: string, limitPrice: real)

  function ProtectivePrice(q: Quote, side: Side): real {
    var offset := MaxReal(0.4, MinReal(4.0, MaxReal(0.0, q.spreadBps) * 0.35)) / 10000.0;
    if side == Buy then (if q.bestAsk > 0.0 then q.bestAsk * (1.0 + offset) else 0.0)
    else if q.bestBid > 0.0 then q.bestBid * (1.0 - offset) else 0.0
  }

  function TargetPrice(q: Quote, side: Side, passive: bool): real {
    var join := MaxReal(0.0, if side == Buy then q.bestBid else q.bestAsk);
    if passive && join > 0.0 then join else ProtectivePrice(q, side)
  }

  predicate PriceMoved(q: Quote, live: real, target: real) {
    target > 0.0 && live > 0.0 &&
    AbsReal(live - target) / MaxReal(target, 0.000000001) * 10000.0 >= MaxReal(1.2, q.spreadBps * 0.55)
  }

  function PriceIf(price: real): Option<real> {
    if price > 0.0 then Some(RoundTo(price, PRICE_UNIT)) else None
  }

  function ManageOrder(q: Quote, p: Prediction, allowed: bool, side: Side, live: LiveOrder, desk: Desk): Plan {
    var fill := Clamp(p.fill, 0.0, 1.0);
    var target := TargetPrice(q, side, live.passive);
    var moved := PriceMoved(q, live.limitPrice, target);
    if !allowed || fill < desk.cancelBelow then
      Plan(Cancel, live.orderType, PriceIf(live.limitPrice), moved)
    else if fill < desk.replaceBelow then
      Plan(Replace, "LIMIT", PriceIf(target), moved)
    else if live.passive && target > 0.0 && (live.orderType != "LIMIT" || live.limitPrice <= 0.0 || moved) then
      Plan(Replace, "LIMIT", PriceIf(target), moved)
    else
      Plan(Keep, live.orderType,
           if live.limitPrice > 0.0 then PriceIf(live.limitPrice)
           else if live.orderType == "LIMIT" then PriceIf(target) else None, moved)
  }

  /** The live order after a plan is applied to it; a market order carries no price. */
  function Apply(live: LiveOrder, plan: Plan): LiveOrder {
    var price := if plan.limitPrice.Some? then plan.limitPrice.value else 0.0;
    LiveOrder(live.passive, plan.orderType,
              if plan.orderType == "LIMIT" && price > 0.0 then price
              else if plan.orderType == "MARKET" then 0.0 else live.limitPrice)
  }

  // ------------------------------------------------------------ the decision on a quote

  /** What is asked for besides the quote. */
  datatype Request = Request(side: Side, live: LiveOrder, desk: Desk, noTrade: bool)

  function PredictionFor(q: Quote, notional: real, side: Side): Prediction {
    Predict(q, side, Measure(q, side, notional))
  }

  function PlanFor(q: Quote, notional: real, req: Request): Plan {
    var p := PredictionFor(q, notional, req.side);
    ManageOrder(q, p, Allowed(q, p, req.desk), req.side, req.live, req.desk)
  }

  predicate AllowsTrade(q: Quote, notional: real, req: Request) {
    && Allowed(q, PredictionFor(q, notional, req.side), req.desk)
    && PlanFor(q, notional, req).action != Cancel
    && !req.noTrade
  }

  /** The whole snapshot, as the router asks for it. */
  method Decide(q: Quote, notional: real, req: Request) returns (allows: bool, plan: Plan)
    ensures allows == AllowsTrade(q, notional, req) && plan == PlanFor(q, notional, req)
  {
    var ahead := QueueAheadUsd(SideLevels(q, req.side), Bias(q));
    var flow := IncomingFlow(q.incomingFlow, q.tapeAcceleration, ReferencePrice(q));
    var edge := EdgeAgainst(ahead, flow, notional, 0.58 + Bias(q) * 0.42, 1.0 - Staleness(q) * 0.22);
    var p := Predict(q, req.side, Signals(edge, DepthCover(q.availableDepthUsd, notional)));
    var allowed, reasons := SlippageGuard(q, p, req.desk);
    plan := ManageOrder(q, p, allowed, req.side, req.live, req.desk);
    allows := allowed && plan.action != Cancel && !req.noTrade;
  }

  /** What a quote must clear, read off the prediction alone. */
  predicate Clears(q: Quote, p: Prediction, req: Request) {
    Allowed(q, p, req.desk) && !req.noTrade && Clamp(p.fill, 0.0, 1.0) >= req.desk.cancelBelow
  }

  lemma CancelsWhen(q: Quote, p: Prediction, allowed: bool, side: Side, live: LiveOrder, desk: Desk)
    ensures ManageOrder(q, p, allowed, side, live, desk).action == Cancel
            <==> !allowed || Clamp(p.fill, 0.0, 1.0) < desk.cancelBelow
  {
  }

  lemma AllowsMeansClears(q: Quote, notional: real, req: Request)
    ensures AllowsTrade(q, notional, req) <==> Clears(q, PredictionFor(q, notional, req.side), req)
  {
    var p := PredictionFor(q, notional, req.side);
    CancelsWhen(q, p, Allowed(q, p, req.desk), req.side, req.live, req.desk);
  }

  // ------------------------------------------------------------ worse quotes

  /** A spread may move from `before` to `after` without making anything look better: its
      magnitude does not fall, or what the score gains is too little for the volatility cut
      and no more than what the spread now costs. */
  predicate SpreadIsNoBetter(before: real, after: real) {
    before <= after &&
    (SpreadMagnitude(before) <= SpreadMagnitude(after)
     || (SpreadMagnitude(before) * 0.34 + 0.66 <= 0.8200005
         && (SpreadMagnitude(before) - SpreadMagnitude(after)) * 0.0612 <= SpreadCost(after) * 0.12))
  }

  lemma PositiveSpreadsAreOrdered(before: real, after: real)
    requires 0.0 <= before <= after
    ensures SpreadMagnitude(before) <= SpreadMagnitude(after) && SpreadIsNoBetter(before, after)
  {
  }

  /** `b` is `a` with more latency, older data, less depth and a spread that is no better. */
  ghost predicate Worse(a: Quote, b: Quote) {
    && b == a.(latencyMs := b.latencyMs, freshnessMs := b.freshnessMs, spreadBps := b.spreadBps,
               availableDepthUsd := b.availableDepthUsd)
    && a.latencyMs <= b.latencyMs && a.freshnessMs <= b.freshnessMs
    && b.availableDepthUsd <= a.availableDepthUsd
    && SpreadIsNoBetter(a.spreadBps, b.spreadBps)
  }

  lemma QuotientOrder(x: real, y: real, d: real, e: real)
    requires 0.0 <= x <= y && 0.0 < d <= e
    ensures 0.0 <= x / e <= y / d
  {
    var s, t := x / e, y / d;
    assert s * e == x && t * d == y;
    assert s >= 0.0;
    if s > t {
      ProductOrder(t, s, d, e);
    }
  }

  lemma ProductOrder(x: real, y: real, d: real, e: real)
    requires 0.0 <= x <= y && 0.0 <= d <= e
    ensures 0.0 <= x * d <= y * e
  {
    assert (y - x) * d == y * d - x * d;
    assert y * (e - d) == y * e - y * d;
    assert (y - x) * d >= 0.0;
    assert y * (e - d) >= 0.0;
  }

  lemma DiscountedFalls(rawA: real, rawB: real, weight: real, freshA: real, freshB: real)
    requires 0.0 <= rawB <= rawA && 0.0 <= weight && 0.0 <= freshB <= freshA
    ensures Discounted(rawB, weight, freshB) <= Discounted(rawA, weight, freshA)
  {
    ProductOrder(rawB, rawA, weight, weight);
    ProductOrder(rawB * weight, rawA * weight, freshB, freshA);
  }

  lemma RawEdgeFalls(flow: real, anchorA: real, anchorB: real)
    requires 1.0 <= anchorA <= anchorB
    ensures 0.0 <= RawEdge(flow, anchorB) <= RawEdge(flow, anchorA)
  {
    if flow > 0.0 {
      QuotientOrder(flow, flow, anchorA, anchorB);
    }
  }

  lemma EdgeFalls(ahead: real, flow: real, n: real, m: real, weight: real, freshA: real, freshB: real)
    requires n <= m && 0.0 <= weight && 0.0 <= freshB <= freshA
    ensures EdgeAgainst(ahead, flow, m, weight, freshB) <= EdgeAgainst(ahead, flow, n, weight, freshA)
  {
    RawEdgeFalls(flow, Anchor(ahead, n), Anchor(ahead, m));
    var rawA, rawB := RawEdge(flow, Anchor(ahead, n)), RawEdge(flow, Anchor(ahead, m));
    DiscountedFalls(rawA, rawB, weight, freshA, freshB);
    Round6Monotone(Clamp(Discounted(rawB, weight, freshB), 0.0, 1.0), Clamp(Discounted(rawA, weight, freshA), 0.0, 1.0));
  }

  lemma DepthCoverFalls(depthA: real, depthB: real, n: real, m: real)
    requires depthB <= depthA && 0.0 < n <= m
    ensures DepthCover(depthB, m) <= DepthCover(depthA, n)
  {
    QuotientOrder(MaxReal(0.0, depthB), MaxReal(0.0, depthA), MaxReal(n, 0.000000001), MaxReal(m, 0.000000001));
  }

  lemma SignalsFall(a: Quote, b: Quote, side: Side, n: real, m: real)
    requires Worse(a, b) && 0.0 < n <= m
    ensures Measure(b, side, m).queueEdge <= Measure(a, side, n).queueEdge
    ensures Measure(b, side, m).depthCover <= Measure(a, side, n).depthCover
  {
    assert Bias(b) == Bias(a) && SideLevels(b, side) == SideLevels(a, side) && ReferencePrice(b) == ReferencePrice(a);
    EdgeFalls(QueueAhead(SideLevels(a, side), Bias(a)),
              IncomingFlow(a.incomingFlow, a.tapeAcceleration, ReferencePrice(a)), n, m,
              0.58 + Bias(a) * 0.42, 1.0 - Staleness(a) * 0.22, 1.0 - Staleness(b) * 0.22);
    DepthCoverFalls(a.availableDepthUsd, b.availableDepthUsd, n, m);
  }

  /** At the volatility cut, rounding decides. */
  lemma VolatilityCut(v: real)
    ensures Round6(v) > 0.82 <==> v > 0.8200005
  {
    var k := RoundHalfEven(v * 1000000.0);
    assert Round6(v) > 0.82 <==> k > 820000;
  }

  lemma ClampOrder(x: real, y: real)
    requires x <= y
    ensures Clamp(x, 0.0, 1.0) <= Clamp(y, 0.0, 1.0)
    ensures x <= 0.0 ==> Clamp(x, 0.0, 1.0) == 0.0
  {
  }

  lemma WorseSpread(before: real, after: real)
    requires before <= after
    ensures SpreadCost(before) <= SpreadCost(after)
    ensures SpreadMagnitude(before) > SpreadMagnitude(after) ==> before < 0.0 && SpreadCost(before) == 0.0
  {
    hide Clamp;
    ClampOrder(MaxReal(0.0, before) / 12.0, MaxReal(0.0, after) / 12.0);
    if before >= 0.0 {
      ClampOrder(AbsReal(before) / 12.0, AbsReal(after) / 12.0);
    }
  }

  lemma WorsePressure(a: Quote, b: Quote)
    requires Worse(a, b)
    ensures Pressure(a) <= Pressure(b)
  {
    assert Staleness(a) <= Staleness(b);
  }

  lemma WorseVolatility(a: Quote, b: Quote)
    requires Worse(a, b)
    ensures Round6(Volatility(a)) > 0.82 ==> Round6(Volatility(b)) > 0.82
    ensures SpreadMagnitude(a.spreadBps) <= SpreadMagnitude(b.spreadBps) ==> Volatility(a) <= Volatility(b)
    ensures SpreadCost(b.spreadBps) * 0.12 + Volatility(b) * 0.18 >= SpreadCost(a.spreadBps) * 0.12 + Volatility(a) * 0.18
  {
    hide Pressure, Staleness, Round6;
    WorsePressure(a, b);
    VolatilityCut(Volatility(a));
    VolatilityCut(Volatility(b));
    WorseSpread(a.spreadBps, b.spreadBps);
  }

  lemma WorsePrediction(a: Quote, b: Quote, side: Side, s: Signals, t: Signals)
    requires Worse(a, b) && t.queueEdge <= s.queueEdge && t.depthCover <= s.depthCover
    ensures Predict(b, side, t).fill <= Predict(a, side, s).fill
    ensures Predict(b, side, t).depthCover <= Predict(a, side, s).depthCover
    ensures Predict(a, side, s).volatility > 0.82 ==> Predict(b, side, t).volatility > 0.82
  {
    WorseVolatility(a, b);
    Round6Monotone(t.depthCover, s.depthCover);
    var fillA, fillB := RawFill(a, side, s), RawFill(b, side, t);
    assert LatencyPenalty(a) <= LatencyPenalty(b);
    assert Clamp(t.depthCover / 4.0, 0.0, 1.0) <= Clamp(s.depthCover / 4.0, 0.0, 1.0);
    assert fillB <= fillA;
    Round6Monotone(Clamp(fillB, 0.0, 1.0), Clamp(fillA, 0.0, 1.0));
  }

  lemma ReasonPersists(a: Quote, b: Quote, p: Prediction, o: Prediction, desk: Desk, r: Reason)
    requires Worse(a, b) && o.fill <= p.fill && o.depthCover <= p.depthCover
    requires p.volatility > 0.82 ==> o.volatility > 0.82
    requires Blocks(r, a, p, desk)
    ensures Blocks(r, b, o, desk)
  {
  }

  /** Every reason to block a quote still stands when the quote gets worse or the order larger. */
  lemma ReasonsPersist(a: Quote, b: Quote, n: real, m: real, side: Side, desk: Desk, r: Reason)
    requires Worse(a, b) && 0.0 < n <= m && Blocks(r, a, PredictionFor(a, n, side), desk)
    ensures Blocks(r, b, PredictionFor(b, m, side), desk)
  {
    SignalsFall(a, b, side, n, m);
    WorsePrediction(a, b, side, Measure(a, side, n), Measure(b, side, m));
    ReasonPersists(a, b, PredictionFor(a, n, side), PredictionFor(b, m, side), desk, r);
  }

  lemma ClearsBefore(a: Quote, b: Quote, p: Prediction, o: Prediction, req: Request)
    requires Worse(a, b) && o.fill <= p.fill && o.depthCover <= p.depthCover
    requires p.volatility > 0.82 ==> o.volatility > 0.82
    requires Clears(b, o, req)
    ensures Clears(a, p, req)
  {
  }

  /** Worse quotes never unlock a trade. */
  lemma WorseNeverUnlocks(a: Quote, b: Quote, n: real, m: real, req: Request)
    requires Worse(a, b) && 0.0 < n <= m && AllowsTrade(b, m, req)
    ensures AllowsTrade(a, n, req)
  {
    AllowsMeansClears(a, n, req);
    AllowsMeansClears(b, m, req);
    SignalsFall(a, b, req.side, n, m);
    WorsePrediction(a, b, req.side, Measure(a, req.side, n), Measure(b, req.side, m));
    ClearsBefore(a, b, PredictionFor(a, n, req.side), PredictionFor(b, m, req.side), req);
  }

  lemma SlippageRises(spreadA: real, spreadB: real, volA: real, volB: real, depthA: real, depthB: real,
                      latencyA: real, latencyB: real)
    requires 0.0 <= spreadA <= spreadB && 0.0 <= volA <= volB && depthB <= depthA && latencyA <= latencyB
    ensures SlippageFor(spreadA, volA, depthA, latencyA) <= SlippageFor(spreadB, volB, depthB, latencyB)
  {
    ChargeRises(spreadA, spreadB, volA, volB);
  }

  lemma ChargeRises(spreadA: real, spreadB: real, volA: real, volB: real)
    requires 0.0 <= spreadA <= spreadB && 0.0 <= volA <= volB
    ensures SpreadCharge(spreadA, volA) <= SpreadCharge(spreadB, volB)
  {
    ProductOrder(spreadA, spreadB, 0.42 + volA * 0.58, 0.42 + volB * 0.58);
  }

  lemma RiskRises(a: Quote, b: Quote, p: Prediction, o: Prediction)
    requires Worse(a, b) && p.volatility <= o.volatility && o.depthCover <= p.depthCover
    ensures RiskScore(a, p) <= RiskScore(b, o)
  {
    var riskA := MaxReal(0.0, a.spreadBps) / 18.0 * 0.24 + p.volatility * 0.3 + MaxReal(0.0, 1.4 - p.depthCover) * 0.22
                 + MinReal(1.0, MaxReal(0.0, a.latencyMs) / 400.0) * 0.14 + MinReal(1.0, MaxReal(0.0, a.freshnessMs) / 60000.0) * 0.1;
    var riskB := MaxReal(0.0, b.spreadBps) / 18.0 * 0.24 + o.volatility * 0.3 + MaxReal(0.0, 1.4 - o.depthCover) * 0.22
                 + MinReal(1.0, MaxReal(0.0, b.latencyMs) / 400.0) * 0.14 + MinReal(1.0, MaxReal(0.0, b.freshnessMs) / 60000.0) * 0.1;
    assert riskA <= riskB;
    Round6Monotone(Clamp(riskA, 0.0, 1.0), Clamp(riskB, 0.0, 1.0));
  }

  /** Nor do they lower the risk score or the expected slippage, when the spread's magnitude
      does not fall. */
  lemma WorseIsRiskier(a: Quote, b: Quote, n: real, m: real, side: Side)
    requires Worse(a, b) && 0.0 < n <= m && SpreadMagnitude(a.spreadBps) <= SpreadMagnitude(b.spreadBps)
    ensures RiskScore(a, PredictionFor(a, n, side)) <= RiskScore(b, PredictionFor(b, m, side))
    ensures ExpectedSlippage(a, Measure(a, side, n)) <= ExpectedSlippage(b, Measure(b, side, m))
  {
    var s, t := Measure(a, side, n), Measure(b, side, m);
    SignalsFall(a, b, side, n, m);
    WorseVolatility(a, b);
    WorsePrediction(a, b, side, s, t);
    Round6Monotone(Volatility(a), Volatility(b));
    RiskRises(a, b, PredictionFor(a, n, side), PredictionFor(b, m, side));
    var spreadA, spreadB := MaxReal(0.0, a.spreadBps), MaxReal(0.0, b.spreadBps);
    var latencyA, latencyB := MaxReal(0.0, a.latencyMs), MaxReal(0.0, b.latencyMs);
    SlippageRises(spreadA, spreadB, Volatility(a), Volatility(b), s.depthCover, t.depthCover, latencyA, latencyB);
    Round6Monotone(SlippageFor(spreadA, Volatility(a), s.depthCover, latencyA),
                   SlippageFor(spreadB, Volatility(b), t.depthCover, latencyB));
  }

  // ------------------------------------------------------------ crossed quotes

  /** Raising the spread, everything else alike, never unlocks a trade. */
  ghost predicate RaisingSpreadIsSafe(before: real, after: real) {
    forall q: Quote, n: real, req: Request :: n > 0.0 && AllowsTrade(q.(spreadBps := after), n, req) ==>
      AllowsTrade(q.(spreadBps := before), n, req)
  }

  const PLAIN: Quote := Quote(0.0, 0.0, 0.0, 0.0, [], [], 0.8, 0.0, 0.0, 0.0, 0.0, 0.0, 0.0, 0.0, 0.0, 0.0)
  const MARKET: LiveOrder := LiveOrder(false, "MARKET", 0.0)

  /** A desk with every limit out of the way, but for the fill it asks for. */
  function OpenDesk(spread: real, minFill: real): Desk {
    Desk(MaxReal(0.0, spread), 0.0, 0.0, 60000.0, minFill, 0.0, 0.0)
  }

  /** With no flow and no depth both readings are zero. */
  lemma NothingToMeasure(q: Quote)
    requires q.incomingFlow == 0.0 && q.tapeAcceleration == 0.0 && q.availableDepthUsd == 0.0
    ensures Measure(q, Buy, 1.0) == Signals(0.0, 0.0)
  {
    NoFlow(ReferencePrice(q));
    NoFlowNoEdge(QueueAhead(SideLevels(q, Buy), Bias(q)), 0.58 + Bias(q) * 0.42, 1.0 - Staleness(q) * 0.22);
  }

  lemma NoFlow(reference: real)
    ensures IncomingFlow(0.0, 0.0, reference) == 0.0
  {
  }

  lemma NoFlowNoEdge(ahead: real, weight: real, freshness: real)
    ensures EdgeAgainst(ahead, 0.0, 1.0, weight, freshness) == 0.0
  {
    RoundHalfEvenInteger(0);
    assert Discounted(0.0, weight, freshness) == 0.0;
  }

  /** It is enough to unlock at the level of predictions. */
  lemma Unlocks(before: real, after: real, q: Quote, req: Request)
    requires q.incomingFlow == 0.0 && q.tapeAcceleration == 0.0 && q.availableDepthUsd == 0.0 && req.side == Buy
    requires Clears(q.(spreadBps := after), Predict(q.(spreadBps := after), Buy, Signals(0.0, 0.0)), req)
    requires !Clears(q.(spreadBps := before), Predict(q.(spreadBps := before), Buy, Signals(0.0, 0.0)), req)
    ensures !RaisingSpreadIsSafe(before, after)
  {
    NothingToMeasure(q.(spreadBps := before));
    NothingToMeasure(q.(spreadBps := after));
    AllowsMeansClears(q.(spreadBps := before), 1.0, req);
    AllowsMeansClears(q.(spreadBps := after), 1.0, req);
  }

  /** A quote whose volatility sits between the two spreads' reach of the cut. */
  lemma UnlockedByVolatility(before: real, after: real)
    requires before <= after && SpreadMagnitude(before) > SpreadMagnitude(after)
    requires SpreadMagnitude(before) * 0.34 + 0.66 > 0.8200005
    ensures !RaisingSpreadIsSafe(before, after)
  {
    var room := MinReal(0.66, 0.8200005 - SpreadMagnitude(after) * 0.34);
    var stale := (room - 0.48) / 0.18;
    var q := PLAIN.(depthImbalance := 2.0, freshnessMs := stale * 60000.0);
    var a, b := q.(spreadBps := before), q.(spreadBps := after);
    var req := Request(Buy, MARKET, OpenDesk(after, 0.0), false);
    assert Staleness(q) == stale;
    assert Pressure(a) == room && Pressure(b) == room;
    VolatilityCut(Volatility(a));
    VolatilityCut(Volatility(b));
    RoundHalfEvenInteger(0);
    Unlocks(before, after, q, req);
  }

  /** Values either side of a rounding boundary come out either side of a fill requirement. */
  lemma RoundingBoundary(below: real)
    requires below < 0.2000015
    ensures Round6(below) < 0.200002 == Round6(0.2000015)
  {
    assert RoundHalfEven(below * 1000000.0) <= 200001;
    assert RoundHalfEven(200001.5) == 200002;
  }

  /** The fill estimate of a plain quote, as a function of its spread. */
  lemma PlainFill(q: Quote)
    requires q == PLAIN.(fillProbability := q.fillProbability, spreadBps := q.spreadBps)
    requires 0.0 <= q.fillProbability <= 1.0
    ensures Volatility(q) == SpreadMagnitude(q.spreadBps) * 0.34
    ensures RawFill(q, Buy, Signals(0.0, 0.0))
            == q.fillProbability * 0.32 + 0.12 - SpreadCost(q.spreadBps) * 0.12 - SpreadMagnitude(q.spreadBps) * 0.0612
  {
    assert Staleness(q) == 0.0 && Pressure(q) == 0.0 && LatencyPenalty(q) == 0.0 && FlowBonus(q, Buy) == 0.0;
  }

  /** A quote whose fill estimate gains more from calmer volatility than the spread costs it. */
  lemma UnlockedByFill(before: real, after: real)
    requires before <= after && SpreadMagnitude(before) > SpreadMagnitude(after)
    requires (SpreadMagnitude(before) - SpreadMagnitude(after)) * 0.0612 > SpreadCost(after) * 0.12
    ensures !RaisingSpreadIsSafe(before, after)
  {
    var baseline := (0.0800015 + SpreadCost(after) * 0.12 + SpreadMagnitude(after) * 0.0612) / 0.32;
    var q := PLAIN.(fillProbability := baseline);
    var a, b := q.(spreadBps := before), q.(spreadBps := after);
    var none := Signals(0.0, 0.0);
    var req := Request(Buy, MARKET, OpenDesk(after, 0.200002), false);
    WorseSpread(before, after);
    RoundHalfEvenInteger(0);
    PlainFill(a);
    PlainFill(b);
    assert RawFill(b, Buy, none) == 0.2000015;
    RoundingBoundary(Clamp(RawFill(a, Buy, none), 0.0, 1.0));
    VolatilityCut(Volatility(b));
    assert !Clears(a, Predict(a, Buy, none), req);
    Unlocks(before, after, q, req);
  }

  /** Crossed quotes break the rule, because a negative spread counts by magnitude in one place
      and as zero in the others. Exactly these raises are safe. */
  lemma RaisingSpreadIsSafeIff(before: real, after: real)
    requires before <= after
    ensures RaisingSpreadIsSafe(before, after) <==> SpreadIsNoBetter(before, after)
  {
    if SpreadIsNoBetter(before, after) {
      forall q: Quote, n: real, req: Request | n > 0.0 && AllowsTrade(q.(spreadBps := after), n, req)
        ensures AllowsTrade(q.(spreadBps := before), n, req)
      {
        WorseNeverUnlocks(q.(spreadBps := before), q.(spreadBps := after), n, n, req);
      }
    } else if SpreadMagnitude(before) * 0.34 + 0.66 > 0.8200005 {
      UnlockedByVolatility(before, after);
    } else {
      UnlockedByFill(before, after);
    }
  }

  // ------------------------------------------------------------ what the guard and the manager decide

  function AtLeastZero(x: real): real {
    if x < 0.0 then 0.0 else x
  }

  function WithinUnit(x: real): real {
    if x < 0.0 then 0.0 else if x > 1.0 then 1.0 else x
  }

  /** The guard's reasons, one by one. */
  lemma BlocksExactly(q: Quote, p: Prediction, desk: Desk)
    ensures Blocks(SpreadTooWide, q, p, desk) <==> AtLeastZero(q.spreadBps) > desk.maxSpreadBps
    ensures Blocks(VolatilityTooHigh, q, p, desk) <==> p.volatility > 0.82
    ensures Blocks(DepthTooThin, q, p, desk) <==> desk.minDepthCover > p.depthCover
    ensures Blocks(LatencyTooHigh, q, p, desk) <==> AtLeastZero(q.latencyMs) > desk.maxLatencyMs
    ensures Blocks(TooStale, q, p, desk) <==> AtLeastZero(q.freshnessMs) > desk.maxFreshnessMs
    ensures Blocks(FillTooLow, q, p, desk) <==> desk.minFill > WithinUnit(p.fill)
    ensures Allowed(q, p, desk) <==> forall r: Reason :: !Blocks(r, q, p, desk)
  {
    if Allowed(q, p, desk) {
      forall r: Reason ensures !Blocks(r, q, p, desk) {
        match r
        case SpreadTooWide => case VolatilityTooHigh => case DepthTooThin =>
        case LatencyTooHigh => case TooStale => case FillTooLow =>
      }
    }
  }

  /** How far beyond the other side a protective price goes, in basis points: about a third of the
      spread, but no less than 0.4 and no more than 4. */
  ghost predicate IsOffset(bps: real, spread: real) {
    && 0.4 <= bps <= 4.0
    && (0.4 <= spread * 0.35 <= 4.0 ==> bps == spread * 0.35)
    && (spread * 0.35 < 0.4 ==> bps == 0.4) && (spread * 0.35 > 4.0 ==> bps == 4.0)
  }

  /** A passive buy joins the best bid and a passive sell the best ask; any other order, or one with
      no queue to join, is priced just beyond the other side, if that is quoted. */
  ghost predicate IsTarget(target: real, q: Quote, side: Side, passive: bool) {
    match side
    case Buy =>
      if passive && q.bestBid > 0.0 then target == q.bestBid
      else if q.bestAsk <= 0.0 then target == 0.0
      else exists bps: real :: IsOffset(bps, q.spreadBps) && (target - q.bestAsk) * 10000.0 == q.bestAsk * bps
    case Sell =>
      if passive && q.bestAsk > 0.0 then target == q.bestAsk
      else if q.bestBid <= 0.0 then target == 0.0
      else exists bps: real :: IsOffset(bps, q.spreadBps) && (q.bestBid - target) * 10000.0 == q.bestBid * bps
  }

  lemma OffsetPrice(price: real, bps: real)
    ensures (price * (1.0 + bps / 10000.0) - price) * 10000.0 == price * bps
    ensures (price - price * (1.0 - bps / 10000.0)) * 10000.0 == price * bps
  {
    var share := bps / 10000.0;
    assert price * (1.0 + share) == price + price * share;
    assert price * (1.0 - share) == price - price * share;
    assert price * share * 10000.0 == price * (share * 10000.0);
  }

  lemma TargetExactly(q: Quote, side: Side, passive: bool)
    ensures IsTarget(TargetPrice(q, side, passive), q, side, passive)
  {
    var bps := MaxReal(0.4, MinReal(4.0, MaxReal(0.0, q.spreadBps) * 0.35));
    assert IsOffset(bps, q.spreadBps);
    OffsetPrice(q.bestAsk, bps);
    OffsetPrice(q.bestBid, bps);
  }

  /** The live price is off the target by 1.2 basis points or more, or by 0.55 spreads if that is
      more; the basis points are of the target, or of 1e-9 where that is less. */
  ghost predicate IsOff(q: Quote, price: real, target: real) {
    var allowance := if q.spreadBps * 0.55 > 1.2 then q.spreadBps * 0.55 else 1.2;
    var scale := if target > 0.000000001 then target else 0.000000001;
    && target > 0.0 && price > 0.0
    && ((price - target) * 10000.0 >= allowance * scale || (target - price) * 10000.0 >= allowance * scale)
  }

  lemma MovedExactly(q: Quote, price: real, target: real)
    ensures PriceMoved(q, price, target) <==> IsOff(q, price, target)
  {
    var allowance := if q.spreadBps * 0.55 > 1.2 then q.spreadBps * 0.55 else 1.2;
    var scale := if target > 0.000000001 then target else 0.000000001;
    var gap := AbsReal(price - target);
    DivThenTimes(gap, scale);
    var share := gap / scale;
    assert share * 10000.0 * scale == share * scale * 10000.0;
    ScaledOrder(share * 10000.0, allowance, 0.0, scale, gap * 10000.0, allowance * scale, 0.0);
  }

  /** A price as it is sent: rounded to eight decimals, or none. */
  ghost predicate IsSent(sent: Option<real>, price: real) {
    if price <= 0.0 then sent == None
    else sent.Some? && price - 0.000000005 <= sent.value <= price + 0.000000005 && OnGrid(sent.value, 0.00000001)
  }

  lemma SentExactly(price: real)
    ensures IsSent(PriceIf(price), price)
  {
    RoundToNearest(price, PRICE_UNIT);
  }

  /** Order management in full: when it cancels, replaces and keeps, and what is sent then. */
  lemma ManageExactly(q: Quote, p: Prediction, allowed: bool, side: Side, live: LiveOrder, desk: Desk)
    ensures var plan, fill := ManageOrder(q, p, allowed, side, live, desk), WithinUnit(p.fill);
            var target := TargetPrice(q, side, live.passive);
            && (plan.action == Cancel <==> !allowed || fill < desk.cancelBelow)
            && (plan.action == Replace <==>
                  && allowed && fill >= desk.cancelBelow
                  && (|| fill < desk.replaceBelow
                      || (live.passive && target > 0.0
                          && (live.orderType != "LIMIT" || live.limitPrice <= 0.0 || IsOff(q, live.limitPrice, target)))))
            && (plan.priceMoved <==> IsOff(q, live.limitPrice, target))
    ensures var plan := ManageOrder(q, p, allowed, side, live, desk);
            var target := TargetPrice(q, side, live.passive);
            && IsTarget(target, q, side, live.passive)
            && plan.orderType == (if plan.action == Replace then "LIMIT" else live.orderType)
            && (plan.action == Replace ==> IsSent(plan.limitPrice, target))
            && (plan.action == Cancel ==> IsSent(plan.limitPrice, live.limitPrice))
            && (plan.action == Keep ==>
                  IsSent(plan.limitPrice, if live.limitPrice > 0.0 then live.limitPrice
                                          else if live.orderType == "LIMIT" then target else 0.0))
  {
    var target := TargetPrice(q, side, live.passive);
    TargetExactly(q, side, live.passive);
    MovedExactly(q, live.limitPrice, target);
    SentExactly(target);
    SentExactly(live.limitPrice);
  }

  /** The price things are measured at: the mark, else the middle of the book, else the last. */
  lemma ReferenceIs(q: Quote)
    ensures q.markPrice > 0.0 ==> ReferencePrice(q) == q.markPrice
    ensures q.markPrice <= 0.0 && q.bestBid > 0.0 && q.bestAsk > 0.0 ==>
              ReferencePrice(q) + ReferencePrice(q) == q.bestBid + q.bestAsk
    ensures q.markPrice <= 0.0 && (q.bestBid <= 0.0 || q.bestAsk <= 0.0) ==> ReferencePrice(q) == q.lastPrice
  {
  }

  /** The incoming flow: as reported, else the tape's acceleration at that price, else none. */
  lemma FlowIs(flow: real, acceleration: real, reference: real)
    ensures var f := IncomingFlow(flow, acceleration, reference);
            && (flow > 0.0 ==> f == flow)
            && (flow <= 0.0 && acceleration > 0.0 && reference > 0.0 ==> f == acceleration * reference)
            && (flow <= 0.0 && (acceleration <= 0.0 || reference <= 0.0) ==> f == 0.0)
  {
    ProductSign(acceleration, if reference > 0.0 then reference else 1.0);
    assert acceleration * 0.0 == 0.0;
  }

  /** Depth supports the fill in proportion, up to four times the order. */
  lemma DepthSupports(q: Quote, side: Side, edge: real, cover: real)
    requires cover >= 0.0
    ensures RawFill(q, side, Signals(edge, cover)) - RawFill(q, side, Signals(edge, 0.0))
            == 0.04 * (if cover <= 4.0 then cover else 4.0)
  {
  }

  /** Buying pressure favours a buyer as much as it counts against a seller. */
  lemma PressureBySide(q: Quote, sig: Signals)
    ensures RawFill(q, Buy, sig) - RawFill(q, Sell, sig)
            == 0.16 * (if q.volumeImbalance < -1.0 then -1.0 else if q.volumeImbalance > 1.0 then 1.0 else q.volumeImbalance)
  {
  }

  /** Each side queues behind its own book. */
  lemma OwnQueueOnly(q: Quote, other: seq<Level>, notional: real)
    ensures QueueEdge(q.(asks := other), Buy, notional) == QueueEdge(q, Buy, notional)
    ensures QueueEdge(q.(bids := other), Sell, notional) == QueueEdge(q, Sell, notional)
  {
  }

  // ------------------------------------------------------------ what order management does

  /** Orders are cancelled exactly when the guard blocks, unless the desk tolerates fills that
      it would also cancel on: then those, and only those, are cancelled although allowed. */
  lemma CancelIsBlocked(q: Quote, notional: real, req: Request)
    ensures var fill := Clamp(PredictionFor(q, notional, req.side).fill, 0.0, 1.0);
            var cancelled := PlanFor(q, notional, req).action == Cancel;
            var allowed := Allowed(q, PredictionFor(q, notional, req.side), req.desk);
            && (cancelled && allowed <==> allowed && req.desk.minFill <= fill < req.desk.cancelBelow)
            && (req.desk.minFill >= req.desk.cancelBelow ==> (cancelled <==> !allowed))
  {
    var p := PredictionFor(q, notional, req.side);
    CancelsWhen(q, p, Allowed(q, p, req.desk), req.side, req.live, req.desk);
  }

  /** The price a replaced order carries: the rounded target, or its old price where that
      rounds to zero. */
  function ReplacedPrice(target: real, live: LiveOrder): real {
    if RoundTo(target, PRICE_UNIT) > 0.0 then RoundTo(target, PRICE_UNIT) else live.limitPrice
  }

  /** When replacing settles: an order that was just replaced is kept, on the same quote, exactly
      when the fill is good enough to keep orders and the price it carries is not itself seen as
      a moved price. */
  lemma ReplacementSettlesIff(q: Quote, p: Prediction, allowed: bool, side: Side, live: LiveOrder, desk: Desk)
    requires ManageOrder(q, p, allowed, side, live, desk).action == Replace
    ensures var plan := ManageOrder(q, p, allowed, side, live, desk);
            var target := TargetPrice(q, side, live.passive);
            var price := ReplacedPrice(target, live);
            ManageOrder(q, p, allowed, side, Apply(live, plan), desk).action == Keep
            <==> Clamp(p.fill, 0.0, 1.0) >= desk.replaceBelow && price > 0.0 && !PriceMoved(q, price, target)
  {
  }

  /** In particular a queue join settles for any target price of at least 0.00005. */
  lemma PassiveJoinSettles(q: Quote, p: Prediction, allowed: bool, side: Side, live: LiveOrder, desk: Desk)
    requires live.passive && TargetPrice(q, side, true) >= 0.00005
    requires Clamp(p.fill, 0.0, 1.0) >= desk.replaceBelow
    ensures var plan := ManageOrder(q, p, allowed, side, live, desk);
            plan.action == Replace ==>
              ManageOrder(q, p, allowed, side, Apply(live, plan), desk).action == Keep
  {
    if ManageOrder(q, p, allowed, side, live, desk).action == Replace {
      ReplacementSettlesIff(q, p, allowed, side, live, desk);
      var target := TargetPrice(q, side, true);
      RoundToNearest(target, PRICE_UNIT);
      SmallGapStays(AbsReal(RoundTo(target, PRICE_UNIT) - target), target);
    }
  }

  lemma SmallGapStays(gap: real, target: real)
    requires 0.0 <= gap <= 0.000000005 && target >= 0.00005
    ensures gap / target * 10000.0 < 1.2
  {
    var ratio := gap / target;
    assert ratio * target == gap;
    if ratio >= 0.00012 {
      ProductOrder(0.00012, ratio, 0.00005, target);
      assert false;
    }
  }

  /** Below that it may never settle: the rounded price is itself seen as a moved price. */
  lemma TinyPricesNeverSettle()
    ensures var q := PLAIN.(bestBid := 0.000000015);
            var p := Prediction(1.0, 1.0, 0.0, 2.0);
            var live := LiveOrder(true, "LIMIT", 0.00000002);
            var plan := ManageOrder(q, p, true, Buy, live, DEFAULT_DESK);
            plan.action == Replace && Apply(live, plan) == live
  {
    assert 0.000000015 / PRICE_UNIT == 1.5;
    assert RoundHalfEven(1.5) == 2;
    assert RoundTo(0.000000015, PRICE_UNIT) == 0.00000002;
  }

  // ------------------------------------------------------------ the quotes the platform's tests go by

  /** A tight, deep and fresh quote. */
  const STRONG: Quote := Quote(100.05, 100.0, 100.1, 100.05,
                               [Level(100.0, 8.0), Level(99.99, 5.0), Level(99.98, 4.0)],
                               [Level(100.1, 7.0), Level(100.11, 4.0), Level(100.12, 3.0)],
                               0.82, 4200.0, 0.32, 1200.0, 34.0, 2.2, 0.08, 0.12, 2500.0, 0.74)

  /** The same, but wide, thin, slow, stale and lopsided. */
  const THIN: Quote := STRONG.(spreadBps := 16.0, availableDepthUsd := 90.0, latencyMs := 420.0,
                               fillProbability := 0.31, freshnessMs := 72000.0, depthImbalance := 0.95,
                               volumeImbalance := 0.9, incomingFlow := 55.0)

  lemma RoundsTo(x: real, k: int)
    requires k as real - 0.5 < x * 1000000.0 < k as real + 0.5
    ensures Round6(x) == k as real / 1000000.0
  {
    HalfAround(x * 1000000.0, k);
  }

  lemma HalfAround(y: real, k: int)
    requires k as real - 0.5 < y < k as real + 0.5
    ensures RoundHalfEven(y) == k
  {
    assert y.Floor == if y >= k as real then k else k - 1;
  }

  lemma StrongQueue()
    ensures QueueAhead(STRONG.bids, 0.82) == 993.9856682 && QueueAhead(STRONG.asks, 0.82) == 850.8260432
  {
    var b, a := STRONG.bids, STRONG.asks;
    assert WeightedNotional(b, 0) == 0.0 && WeightedNotional(a, 0) == 0.0;
    assert WeightedNotional(b, 1) == 800.0 && WeightedNotional(a, 1) == 700.7;
    assert WeightedNotional(b, 2) == 974.9825 && WeightedNotional(a, 2) == 840.854;
    assert WeightedNotional(b, 3) == 1034.9705 && WeightedNotional(a, 3) == 885.908;
  }

  lemma StrongEdge(notional: real)
    requires 0.0 < notional <= 100.0
    ensures QueueEdge(STRONG, Buy, notional) == 0.920333
  {
    StrongQueue();
    assert Staleness(STRONG) == 0.02 && Anchor(993.9856682, notional) == 993.9856682;
    RoundsTo(0.9244 * 0.9956, 920333);
  }

  lemma TrickleEdge()
    ensures QueueEdge(STRONG.(incomingFlow := 400.0), Buy, 100.0) == 0.370361
  {
    StrongQueue();
    assert Staleness(STRONG) == 0.02 && Anchor(993.9856682, 100.0) == 993.9856682;
    var share := 400.0 / 993.9856682;
    DivThenTimes(400.0, 993.9856682);
    assert 0.40242 < share < 0.402421;
    RoundsTo(share * 0.9244 * 0.9956, 370361);
  }

  lemma ThinEdge()
    ensures QueueEdge(THIN, Buy, 100.0) == 0.039897
  {
    StrongQueue();
    assert Staleness(THIN) == 1.0 && Anchor(993.9856682, 100.0) == 993.9856682;
    var share := 55.0 / 993.9856682;
    DivThenTimes(55.0, 993.9856682);
    assert 0.055332 < share < 0.055333;
    RoundsTo(share * 0.9244 * 0.78, 39897);
  }

  /** Flow that outpaces the queue gives an edge above 0.7, and more than a trickle does. */
  lemma FlowMakesTheEdge()
    ensures QueueEdge(STRONG.(incomingFlow := 400.0), Buy, 100.0) < QueueEdge(STRONG, Buy, 100.0)
    ensures QueueEdge(STRONG, Buy, 100.0) > 0.7
  {
    StrongEdge(100.0);
    TrickleEdge();
  }

  /** Every reading of the two quotes, to six decimals. */
  lemma StrongReadings()
    ensures var sig := Measure(STRONG, Buy, 80.0);
            && Predict(STRONG, Buy, sig) == Prediction(0.74, 0.770089, 0.095333, 31.25)
            && ExpectedSlippage(STRONG, sig) == 1.045645
            && RiskScore(STRONG, Predict(STRONG, Buy, sig)) == 0.071833
  {
    StrongEdge(80.0);
    var sig := Measure(STRONG, Buy, 80.0);
    assert sig == Signals(0.920333, 31.25);
    assert Pressure(STRONG) == 0.033;
    var v := Volatility(STRONG);
    assert v == 2.2 / 12.0 * 0.34 + 0.033;
    assert 0.0953333 < v < 0.0953334;
    RoundsTo(0.74, 740000);
    RoundsTo(v, 95333);
    RoundsTo(31.25, 31250000);
    var fill := RawFill(STRONG, Buy, sig);
    assert 0.77008 < fill < 0.7700895 && fill > 0.7700885;
    RoundsTo(fill, 770089);
    var slip := SlippageFor(2.2, v, 31.25, 34.0);
    assert slip == 2.2 * (0.42 + v * 0.58);
    assert 1.0456445 < slip < 1.0456455;
    RoundsTo(slip, 1045645);
    var risk := 2.2 / 18.0 * 0.24 + 0.095333 * 0.3 + 34.0 / 400.0 * 0.14 + 0.02 * 0.1;
    assert 0.0718325 < risk < 0.0718335;
    RoundsTo(risk, 71833);
  }

  lemma ThinReadings()
    ensures var sig := Measure(THIN, Buy, 100.0);
            && Predict(THIN, Buy, sig) == Prediction(0.31, 0.0, 0.69275, 0.9)
            && ExpectedSlippage(THIN, sig) == 16.027609
            && RiskScore(THIN, Predict(THIN, Buy, sig)) == 0.771158
  {
    ThinEdge();
    var sig := Measure(THIN, Buy, 100.0);
    assert sig == Signals(0.039897, 0.9);
    assert Pressure(THIN) == 0.35275 && Volatility(THIN) == 0.69275;
    RoundsTo(0.31, 310000);
    RoundsTo(0.69275, 692750);
    RoundsTo(0.9, 900000);
    assert RawFill(THIN, Buy, sig) < 0.0;
    RoundsTo(0.0, 0);
    var slip := SlippageFor(16.0, 0.69275, 0.9, 420.0);
    assert slip == 16.0 * (0.42 + 0.69275 * 0.58) + 0.45 * 2.2 + 340.0 / 180.0;
    assert 16.0276085 < slip < 16.0276095;
    RoundsTo(slip, 16027609);
    var risk := 16.0 / 18.0 * 0.24 + 0.69275 * 0.3 + 0.5 * 0.22 + 0.14 + 0.1;
    assert 0.7711575 < risk < 0.7711585;
    RoundsTo(risk, 771158);
  }

  /** A passive buy on the strong quote is moved from the market to the best bid; a limit order
      near it is kept; and the thin quote is blocked, for every reason but volatility. */
  lemma ExampleDecisions()
    ensures var passive := Request(Buy, LiveOrder(true, "MARKET", 0.0), DEFAULT_DESK, false);
            && AllowsTrade(STRONG, 80.0, passive)
            && PlanFor(STRONG, 80.0, passive) == Plan(Replace, "LIMIT", Some(100.0), false)
    ensures var plain := Request(Buy, LiveOrder(false, "LIMIT", 100.06), DEFAULT_DESK, false);
            && AllowsTrade(STRONG, 80.0, plain)
            && PlanFor(STRONG, 80.0, plain).action == Keep
    ensures var market := Request(Buy, LiveOrder(false, "MARKET", 0.0), DEFAULT_DESK, false);
            var p := PredictionFor(THIN, 100.0, Buy);
            && !AllowsTrade(THIN, 100.0, market)
            && PlanFor(THIN, 100.0, market).action == Cancel
            && forall r: Reason :: Blocks(r, THIN, p, DEFAULT_DESK) <==> r != VolatilityTooHigh
  {
    StrongReadings();
    ThinReadings();
    assert 100.0 == Multiple(10000000000, PRICE_UNIT);
    RoundToOnGrid(100.0, PRICE_UNIT);
  }
}
