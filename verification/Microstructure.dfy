/** Offline order-flow back-test over trade buckets: a lopsided window opens a trade at the
    next bucket's average price and closes it a fixed number of buckets later. Windows and
    holding periods that straddle a pause in the data are rejected. */
module Microstructure {
  import opened Basics
  import opened GreedyScan
  import opened Grid

  type Positive = n: int | n > 0 witness 1

  /** The loader drops buckets without volume, and averages positive prices. */
  type Bucket = b: RawBucket | b.vwap > 0.0 && b.buyVol + b.sellVol > 0.0 witness RawBucket(0.0, 1.0, 0.0, 1.0)

  datatype RawBucket = RawBucket(start: real, buyVol: real, sellVol: real, vwap: real)

  datatype Params = Params(
    lookback: Positive,
    horizon: nat,
    threshold: real,
    cooldown: int,
    feeBps: real,
    minTotalVol: real,
    neutralBand: real,
    maxGap: real)

  datatype Side = Long | Short
  datatype Outcome = Win | Loss | Neutral
  datatype Trade = Trade(
    side: Side,
    entryIdx: int,
    entryPrice: real,
    exitIdx: int,
    exitPrice: real,
    imbalance: real,
    buyVol: real,
    sellVol: real,
    pnlBps: real,
    outcome: Outcome)

  // ------------------------------------------------------------ what one bucket offers

  function SumBuys(b: seq<Bucket>, lo: int, hi: int): real
    requires 0 <= lo <= hi <= |b|
    decreases hi - lo
  {
    if lo == hi then 0.0 else SumBuys(b, lo, hi - 1) + b[hi - 1].buyVol
  }

  function SumSells(b: seq<Bucket>, lo: int, hi: int): real
    requires 0 <= lo <= hi <= |b|
    decreases hi - lo
  {
    if lo == hi then 0.0 else SumSells(b, lo, hi - 1) + b[hi - 1].sellVol
  }

  predicate GapOk(b: seq<Bucket>, i: int, maxGap: real)
    requires 0 < i < |b|
  {
    b[i].start - b[i - 1].start <= maxGap
  }

  /** No pause longer than the allowed gap between neighbours among buckets lo..hi-1. */
  predicate Contiguous(b: seq<Bucket>, lo: int, hi: int, maxGap: real)
    requires 0 <= lo <= hi <= |b|
  {
    forall i :: lo < i < hi ==> GapOk(b, i, maxGap)
  }

  function SignalSide(imbalance: real, threshold: real): Option<Side> {
    if imbalance >= threshold then Some(Long)
    else if imbalance <= -threshold then Some(Short)
    else None
  }

  function Classify(pnlBps: real, band: real): Outcome {
    if pnlBps >= band then Win else if pnlBps <= -band then Loss else Neutral
  }

  function Bound(b: seq<Bucket>, p: Params): int {
    |b| - p.horizon - 1
  }

  function WindowStart(p: Params, t: int): int {
    t - p.lookback + 1
  }

  /** A window of live buckets trades a positive volume. */
  lemma {:induction false} WindowHasVolume(b: seq<Bucket>, lo: int, hi: int)
    requires 0 <= lo < hi <= |b|
    ensures SumBuys(b, lo, hi) + SumSells(b, lo, hi) > 0.0
    decreases hi - lo
  {
    if lo + 1 < hi {
      WindowHasVolume(b, lo, hi - 1);
    }
  }

  function MakeTrade(b: seq<Bucket>, p: Params, t: int, side: Side, buy: real, sell: real): Trade
    requires 0 <= t && t + 1 < |b| && 0 <= t + 1 + p.horizon < |b| && buy + sell > 0.0
  {
    var entry, exit := b[t + 1].vwap, b[t + 1 + p.horizon].vwap;
    var sign := if side == Long then 1.0 else -1.0;
    var pnl := sign * ((exit - entry) / entry) * 10000.0 - 2.0 * p.feeBps;
    Trade(side, t + 1, entry, t + 1 + p.horizon, exit, (buy - sell) / (buy + sell), buy, sell, pnl,
          Classify(pnl, p.neutralBand))
  }

  function Offer(b: seq<Bucket>, p: Params, t: int): Pick<Trade> {
    if !(p.lookback - 1 <= t < Bound(b, p)) then Skip
    else if !Contiguous(b, WindowStart(p, t), t + 1, p.maxGap) then Skip
    else
      var buy, sell := SumBuys(b, WindowStart(p, t), t + 1), SumSells(b, WindowStart(p, t), t + 1);
      WindowHasVolume(b, WindowStart(p, t), t + 1);
      if buy + sell < p.minTotalVol then Skip
      else
        match SignalSide((buy - sell) / (buy + sell), p.threshold)
        case None => Skip
        case Some(side) =>
          if !Contiguous(b, t, t + 2 + p.horizon, p.maxGap) then Skip
          else Take(t + 1 + p.horizon, MakeTrade(b, p, t, side, buy, sell))
  }

  function Offers(b: seq<Bucket>, p: Params): int -> Pick<Trade> {
    (t: int) => Offer(b, p, t)
  }

  lemma OffersAreForward(b: seq<Bucket>, p: Params)
    ensures Forward(Offers(b, p))
  {
  }

  /** The simulator's result. Its length guard asks for one bucket more than the walk needs. */
  ghost function Simulation(b: seq<Bucket>, p: Params): seq<Fill<Trade>> {
    OffersAreForward(b, p);
    if |b| < p.lookback + p.horizon + 2 then []
    else Scan(Offers(b, p), p.lookback - 1, p.lookback - 1, Bound(b, p), p.cooldown)
  }

  // ------------------------------------------------------------ the simulator as it runs

  method CheckGaps(b: seq<Bucket>, lo: int, hi: int, maxGap: real) returns (ok: bool)
    requires 0 <= lo <= hi <= |b|
    ensures ok == Contiguous(b, lo, hi, maxGap)
  {
    var window := b[lo..hi];
    var i := 1;
    while i < |window|
      invariant 1 <= i
      invariant forall k :: lo < k < lo + i && k < hi ==> GapOk(b, k, maxGap)
    {
      var delta := window[i].start - window[i - 1].start;
      if delta > maxGap {
        assert !GapOk(b, lo + i, maxGap);
        return false;
      }
      i := i + 1;
    }
    ok := true;
  }

  method SumWindow(b: seq<Bucket>, lo: int, hi: int) returns (buy: real, sell: real)
    requires 0 <= lo <= hi <= |b|
    ensures buy == SumBuys(b, lo, hi) && sell == SumSells(b, lo, hi)
  {
    buy, sell := 0.0, 0.0;
    for i := lo to hi
      invariant buy == SumBuys(b, lo, i) && sell == SumSells(b, lo, i)
    {
      buy, sell := buy + b[i].buyVol, sell + b[i].sellVol;
    }
  }

  /** One pass of the loop body on a bucket that is free to signal. */
  method Evaluate(b: seq<Bucket>, p: Params, t: int) returns (pick: Pick<Trade>)
    requires p.lookback - 1 <= t < Bound(b, p)
    ensures pick == Offer(b, p, t)
  {
    var lo := t - p.lookback + 1;
    var okLookback := CheckGaps(b, lo, t + 1, p.maxGap);
    if !okLookback {
      return Skip;
    }
    var buy, sell := SumWindow(b, lo, t + 1);
    WindowHasVolume(b, lo, t + 1);
    var total := buy + sell;
    if total < p.minTotalVol {
      return Skip;
    }
    var side := SignalSide((buy - sell) / total, p.threshold);
    if side.None? {
      return Skip;
    }
    var exitIdx := t + 1 + p.horizon;
    var okPath := CheckGaps(b, t, exitIdx + 1, p.maxGap);
    if !okPath {
      return Skip;
    }
    pick := Take(exitIdx, MakeTrade(b, p, t, side.value, buy, sell));
  }

  method Simulate(b: seq<Bucket>, p: Params) returns (trades: seq<Fill<Trade>>)
    ensures trades == Simulation(b, p)
  {
    trades := [];
    if |b| < p.lookback + p.horizon + 2 {
      return;
    }
    hide Offer;
    OffersAreForward(b, p);
    ghost var whole, bound := Simulation(b, p), Bound(b, p);
    ghost var offers := Offers(b, p);
    var nextEligible: int, t: int := p.lookback - 1, p.lookback - 1;
    while t < |b| - p.horizon - 1
      invariant t >= p.lookback - 1
      invariant Leads(whole, trades, offers, t, nextEligible, bound, p.cooldown)
      decreases |b| - t
    {
      if t < nextEligible {
        StepOver(whole, trades, offers, t, nextEligible, bound, p.cooldown);
        t := t + 1;
        continue;
      }
      var pick := Evaluate(b, p, t);
      assert offers(t) == pick;
      match pick
      case Skip =>
        StepOver(whole, trades, offers, t, nextEligible, bound, p.cooldown);
        t := t + 1;
      case Take(exit, trade) =>
        var fill := Fill(t, exit, trade);
        StepFills(whole, trades, fill, offers, nextEligible, bound, p.cooldown);
        trades := trades + [fill];
        nextEligible := exit + p.cooldown;
        t := exit + 1;
    }
  }

  // ------------------------------------------------------------ no look-ahead

  lemma {:induction false} SumsExtend(b: seq<Bucket>, d: seq<Bucket>, lo: int, hi: int)
    requires 0 <= lo <= hi <= |b|
    ensures SumBuys(b + d, lo, hi) == SumBuys(b, lo, hi)
    ensures SumSells(b + d, lo, hi) == SumSells(b, lo, hi)
    decreases hi - lo
  {
    if lo < hi {
      SumsExtend(b, d, lo, hi - 1);
    }
  }

  lemma ContiguousExtends(b: seq<Bucket>, d: seq<Bucket>, lo: int, hi: int, maxGap: real)
    requires 0 <= lo <= hi <= |b|
    ensures Contiguous(b + d, lo, hi, maxGap) <==> Contiguous(b, lo, hi, maxGap)
  {
    assert forall i :: lo < i < hi ==> (GapOk(b + d, i, maxGap) <==> GapOk(b, i, maxGap));
  }

  lemma OfferExtends(b: seq<Bucket>, d: seq<Bucket>, p: Params, t: int)
    requires t < Bound(b, p)
    ensures Offer(b + d, p, t) == Offer(b, p, t)
  {
    if p.lookback - 1 <= t {
      SumsExtend(b, d, WindowStart(p, t), t + 1);
      ContiguousExtends(b, d, WindowStart(p, t), t + 1, p.maxGap);
      ContiguousExtends(b, d, t, t + 2 + p.horizon, p.maxGap);
    }
  }

  /** No look-ahead over whole runs. Trades that only longer data shows are signalled beyond
      the old bound, save for the one length at which the guard is stricter than the walk. */
  lemma SimulationIsCausal(b: seq<Bucket>, d: seq<Bucket>, p: Params)
    ensures var short, long := Simulation(b, p), Simulation(b + d, p);
            && short <= long
            && (|b| != p.lookback + p.horizon + 1 ==>
                  forall i :: |short| <= i < |long| ==> long[i].signal >= Bound(b, p))
  {
    OffersAreForward(b, p);
    OffersAreForward(b + d, p);
    forall t | t < Bound(b, p) ensures Offers(b, p)(t) == Offers(b + d, p)(t) {
      OfferExtends(b, d, p, t);
    }
    ScanExtends(Offers(b, p), Offers(b + d, p), p.lookback - 1, p.lookback - 1, Bound(b, p), Bound(b + d, p),
                p.cooldown);
    if |b| < p.lookback + p.horizon + 2 <= |b + d| {
      ScanIsGreedy(Offers(b + d, p), p.lookback - 1, p.lookback - 1, Bound(b + d, p), p.cooldown);
    }
  }

  /** When the guard costs a trade: at exactly that length, when the only admissible bucket
      offers one. At every other length the simulator returns the full walk. */
  lemma GuardCostsATrade(b: seq<Bucket>, p: Params)
    requires Forward(Offers(b, p))
    ensures Simulation(b, p) != Scan(Offers(b, p), p.lookback - 1, p.lookback - 1, Bound(b, p), p.cooldown)
            <==> |b| == p.lookback + p.horizon + 1 && Offer(b, p, p.lookback - 1).Take?
  {
    if |b| == p.lookback + p.horizon + 1 {
      var t := p.lookback - 1;
      assert Bound(b, p) == t + 1;
      assert Scan(Offers(b, p), t + 1, t, Bound(b, p), p.cooldown) == [];
    }
  }

  // ------------------------------------------------------------ the shape of a run

  /** No two neighbours among buckets lo..hi-1 start further apart than the allowed gap. */
  ghost predicate NoPause(b: seq<Bucket>, lo: int, hi: int, maxGap: real)
    requires 0 <= lo && hi <= |b|
  {
    forall i :: lo < i < hi ==> b[i].start <= b[i - 1].start + maxGap
  }

  /** The flow that signals: buying beyond the threshold for a long, or else selling for a short. */
  ghost predicate Signals(side: Side, buy: real, sell: real, threshold: real) {
    var needed := threshold * (buy + sell);
    if side == Long then buy - sell >= needed else buy - sell < needed && sell - buy >= needed
  }

  lemma SideIsSignalled(buy: real, sell: real, threshold: real)
    requires buy + sell > 0.0
    ensures var side := SignalSide((buy - sell) / (buy + sell), threshold);
            && (side == Some(Long) <==> Signals(Long, buy, sell, threshold))
            && (side == Some(Short) <==> Signals(Short, buy, sell, threshold))
  {
    var total, imbalance := buy + sell, (buy - sell) / (buy + sell);
    DivThenTimes(buy - sell, total);
    ScaledOrder(imbalance, threshold, 0.0, total, buy - sell, threshold * total, 0.0);
    ScaledOrder(imbalance, -threshold, 0.0, total, buy - sell, -(threshold * total), 0.0);
  }

  /** A trade spans its whole window, holding period included, without a pause; it enters one
      bucket after the signal and leaves `horizon` buckets later. */
  ghost predicate TradeFacts(b: seq<Bucket>, p: Params, f: Fill<Trade>) {
    var t, trade := f.signal, f.trade;
    && p.lookback - 1 <= t < |b| - p.horizon - 1
    && f.exit == trade.exitIdx == t + 1 + p.horizon < |b|
    && trade.entryIdx == t + 1
    && trade.entryPrice == b[t + 1].vwap && trade.exitPrice == b[t + 1 + p.horizon].vwap
    && NoPause(b, t - p.lookback + 1, t + 2 + p.horizon, p.maxGap)
    && trade.buyVol == SumBuys(b, t - p.lookback + 1, t + 1) && trade.sellVol == SumSells(b, t - p.lookback + 1, t + 1)
    && trade.buyVol + trade.sellVol >= p.minTotalVol
    && trade.imbalance * (trade.buyVol + trade.sellVol) == trade.buyVol - trade.sellVol
    && Signals(trade.side, trade.buyVol, trade.sellVol, p.threshold)
    && PaidFacts(trade, p)
  }

  /** The profit in basis points of the entry is the rise for a long and the fall for a short,
      less the fees; a win pays at least the band, a loss costs at least as much (and pays less
      than the band). */
  ghost predicate PaidFacts(trade: Trade, p: Params) {
    var rise := (trade.exitPrice - trade.entryPrice) * 10000.0;
    && (trade.pnlBps + 2.0 * p.feeBps) * trade.entryPrice == (if trade.side == Long then rise else -rise)
    && (trade.outcome == Win <==> trade.pnlBps >= p.neutralBand)
    && (trade.outcome == Loss <==> trade.pnlBps < p.neutralBand && trade.pnlBps <= -p.neutralBand)
  }

  lemma TradeIsPaid(b: seq<Bucket>, p: Params, t: int, side: Side, buy: real, sell: real)
    requires 0 <= t && t + 1 < |b| && 0 <= t + 1 + p.horizon < |b| && buy + sell > 0.0
    ensures PaidFacts(MakeTrade(b, p, t, side, buy, sell), p)
  {
    var trade := MakeTrade(b, p, t, side, buy, sell);
    var gross, fees := trade.pnlBps + 2.0 * p.feeBps, 2.0 * p.feeBps;
    var entry, rise := trade.entryPrice, trade.exitPrice - trade.entryPrice;
    var q := rise / entry;
    DivThenTimes(rise, entry);
    var sign := if side == Long then 1.0 else -1.0;
    assert gross == sign * q * 10000.0;
    ProductOfThree(sign, q, entry, rise);
  }

  lemma ProductOfThree(sign: real, q: real, entry: real, rise: real)
    requires q * entry == rise && (sign == 1.0 || sign == -1.0)
    ensures sign * q * 10000.0 * entry == if sign == 1.0 then rise * 10000.0 else -(rise * 10000.0)
  {
  }

  lemma TradeIsSignalled(b: seq<Bucket>, p: Params, t: int)
    requires Offer(b, p, t).Take?
    ensures var trade := Offer(b, p, t).trade;
            && trade.buyVol + trade.sellVol > 0.0
            && trade.imbalance * (trade.buyVol + trade.sellVol) == trade.buyVol - trade.sellVol
            && Signals(trade.side, trade.buyVol, trade.sellVol, p.threshold)
            && trade == MakeTrade(b, p, t, trade.side, trade.buyVol, trade.sellVol)
  {
    var trade := Offer(b, p, t).trade;
    WindowHasVolume(b, WindowStart(p, t), t + 1);
    SideIsSignalled(trade.buyVol, trade.sellVol, p.threshold);
    DivThenTimes(trade.buyVol - trade.sellVol, trade.buyVol + trade.sellVol);
  }

  lemma PathHasNoPause(b: seq<Bucket>, p: Params, t: int)
    requires p.lookback - 1 <= t < Bound(b, p)
    ensures Contiguous(b, WindowStart(p, t), t + 1, p.maxGap) && Contiguous(b, t, t + 2 + p.horizon, p.maxGap)
            <==> NoPause(b, t - p.lookback + 1, t + 2 + p.horizon, p.maxGap)
  {
    if Contiguous(b, WindowStart(p, t), t + 1, p.maxGap) && Contiguous(b, t, t + 2 + p.horizon, p.maxGap) {
      forall i | t - p.lookback + 1 < i < t + 2 + p.horizon ensures b[i].start <= b[i - 1].start + p.maxGap {
        assert GapOk(b, i, p.maxGap);
      }
    }
    if NoPause(b, t - p.lookback + 1, t + 2 + p.horizon, p.maxGap) {
      assert forall i :: t - p.lookback + 1 < i < t + 2 + p.horizon ==> GapOk(b, i, p.maxGap);
    }
  }

  lemma OfferFacts(b: seq<Bucket>, p: Params, t: int)
    requires Offer(b, p, t).Take?
    ensures TradeFacts(b, p, Fill(t, Offer(b, p, t).exit, Offer(b, p, t).trade))
  {
    var trade := Offer(b, p, t).trade;
    TradeIsSignalled(b, p, t);
    TradeIsPaid(b, p, t, trade.side, trade.buyVol, trade.sellVol);
    PathHasNoPause(b, p, t);
  }

  /** Which buckets offer a trade: those inside the bounds whose window and holding period have
      no pause, with the volume asked for and a flow that signals either way. */
  lemma OffersExactly(b: seq<Bucket>, p: Params, t: int)
    ensures Offer(b, p, t).Take?
            <==> && p.lookback - 1 <= t < |b| - p.horizon - 1
                 && NoPause(b, t - p.lookback + 1, t + 2 + p.horizon, p.maxGap)
                 && var buy, sell := SumBuys(b, t - p.lookback + 1, t + 1), SumSells(b, t - p.lookback + 1, t + 1);
                    && buy + sell >= p.minTotalVol
                    && (Signals(Long, buy, sell, p.threshold) || Signals(Short, buy, sell, p.threshold))
  {
    if p.lookback - 1 <= t < |b| - p.horizon - 1 {
      PathHasNoPause(b, p, t);
      WindowHasVolume(b, WindowStart(p, t), t + 1);
      SideIsSignalled(SumBuys(b, t - p.lookback + 1, t + 1), SumSells(b, t - p.lookback + 1, t + 1), p.threshold);
    }
  }

  /** The sums are the buckets' own flows: bounds on every bucket's bound their sum. */
  lemma {:induction false} BuysAreBounded(b: seq<Bucket>, lo: int, hi: int, least: real, most: real)
    requires 0 <= lo <= hi <= |b|
    requires forall i :: lo <= i < hi ==> least <= b[i].buyVol <= most
    ensures least * (hi - lo) as real <= SumBuys(b, lo, hi) <= most * (hi - lo) as real
    decreases hi - lo
  {
    if lo < hi {
      BuysAreBounded(b, lo, hi - 1, least, most);
      OneMoreTimes(least, (hi - 1 - lo) as real, (hi - lo) as real);
      OneMoreTimes(most, (hi - 1 - lo) as real, (hi - lo) as real);
    }
  }

  lemma {:induction false} SellsAreBounded(b: seq<Bucket>, lo: int, hi: int, least: real, most: real)
    requires 0 <= lo <= hi <= |b|
    requires forall i :: lo <= i < hi ==> least <= b[i].sellVol <= most
    ensures least * (hi - lo) as real <= SumSells(b, lo, hi) <= most * (hi - lo) as real
    decreases hi - lo
  {
    if lo < hi {
      SellsAreBounded(b, lo, hi - 1, least, most);
      OneMoreTimes(least, (hi - 1 - lo) as real, (hi - lo) as real);
      OneMoreTimes(most, (hi - 1 - lo) as real, (hi - lo) as real);
    }
  }

  /** The whole run: every fill has the facts above and keeps its distance, and (but for the
      guard's one length) the fills are the greedy selection among the offers. */
  lemma SimulationStructure(b: seq<Bucket>, p: Params)
    ensures var fills := Simulation(b, p);
            && (|b| != p.lookback + p.horizon + 1 ==>
                  IsGreedy(fills, Offers(b, p), p.lookback - 1, Bound(b, p), p.cooldown))
            && (forall i :: 0 <= i < |fills| ==> TradeFacts(b, p, fills[i]))
            && (forall i :: 0 < i < |fills| ==>
                  fills[i].trade.entryIdx >= fills[i - 1].trade.exitIdx + 1 + Max(1, p.cooldown))
  {
    OffersAreForward(b, p);
    ScanIsGreedy(Offers(b, p), p.lookback - 1, p.lookback - 1, Bound(b, p), p.cooldown);
    var fills := Simulation(b, p);
    forall i | 0 <= i < |fills| ensures TradeFacts(b, p, fills[i]) {
      assert Offered(fills[i], Offers(b, p));
      OfferFacts(b, p, fills[i].signal);
    }
    forall i | 0 < i < |fills|
      ensures fills[i].trade.entryIdx >= fills[i - 1].trade.exitIdx + 1 + Max(1, p.cooldown)
    {
      assert TradeFacts(b, p, fills[i]) && TradeFacts(b, p, fills[i - 1]);
      assert FreeAfter(fills[i - 1], p.cooldown) <= fills[i].signal;
    }
  }
}
