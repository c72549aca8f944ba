/** Offline mean-reversion back-test: a close far from its rolling average opens a trade at
    the next bar's open, which ends at the average, at a stop, or after `horizon` bars. */
module MeanReversion {
  import opened Basics
  import opened GreedyScan
  import opened Grid

  /** Opens divide the profit, so a zero open stops the source with a division error. */
  type NonZero = x: real | x != 0.0 witness 1.0
  type Positive = n: int | n > 0 witness 1
  /** With a horizon below -1 the walk would step backwards for ever. */
  type Horizon = h: int | h >= -1 witness 0

  datatype Candle = Candle(open: NonZero, high: real, low: real, close: real)

  datatype Params = Params(
    smaWindow: Positive,
    devPct: real,
    slMult: real,
    horizon: Horizon,
    cooldown: int,
    feeBps: real,
    neutralBand: real)

  datatype Side = Long | Short
  datatype Reason = TakeProfit | StopLoss | Timeout
  datatype Outcome = Win | Loss | Neutral
  datatype Exit = Exit(idx: int, price: real, reason: Reason)

  datatype Trade = Trade(
    side: Side,
    entryIdx: int,
    entryPrice: NonZero,
    exitIdx: int,
    exitPrice: real,
    reason: Reason,
    sma: real,
    deviationPct: real,
    barsHeld: int,
    pnlBps: real,
    outcome: Outcome)

  // ------------------------------------------------------------ what one bar offers

  /** The closes of bars from..to, summed. */
  function SumCloses(c: seq<Candle>, lo: int, hi: int): real
    requires 0 <= lo <= hi <= |c|
    decreases hi - lo
  {
    if lo == hi then 0.0 else SumCloses(c, lo, hi - 1) + c[hi - 1].close
  }

  /** The direct mean of the window ending at bar `t`. */
  function Sma(c: seq<Candle>, p: Params, t: int): real
    requires p.smaWindow - 1 <= t < |c|
  {
    SumCloses(c, t - p.smaWindow + 1, t + 1) / p.smaWindow as real
  }

  function SignalSide(deviation: real, devPct: real): Option<Side> {
    var threshold := devPct / 100.0;
    if deviation <= -threshold then Some(Long)
    else if deviation >= threshold then Some(Short)
    else None
  }

  function StopPrice(side: Side, entry: real, distance: real, slMult: real): real {
    if side == Long then entry - slMult * distance else entry + slMult * distance
  }

  predicate HitsTarget(bar: Candle, side: Side, target: real) {
    if side == Long then bar.high >= target else bar.low <= target
  }

  predicate HitsStop(bar: Candle, side: Side, stop: real) {
    if side == Long then bar.low <= stop else bar.high >= stop
  }

  /** The stop wins a bar that reaches both. */
  function ExitAt(bar: Candle, k: int, side: Side, target: real, stop: real): Option<Exit> {
    if HitsStop(bar, side, stop) then Some(Exit(k, stop, StopLoss))
    else if HitsTarget(bar, side, target) then Some(Exit(k, target, TakeProfit))
    else None
  }

  /** The first exit among bars k..last, or the close of bar `last`. */
  function FirstExit(c: seq<Candle>, k: int, last: int, side: Side, target: real, stop: real): Exit
    requires 0 <= k && 0 <= last < |c|
    decreases last - k
  {
    if k > last then Exit(last, c[last].close, Timeout)
    else match ExitAt(c[k], k, side, target, stop)
      case Some(e) => e
      case None => FirstExit(c, k + 1, last, side, target, stop)
  }

  function Classify(pnlBps: real, band: real): Outcome {
    if pnlBps >= band then Win else if pnlBps <= -band then Loss else Neutral
  }

  function PriceMove(side: Side, entry: real, exit: real): real {
    if side == Long then exit - entry else entry - exit
  }

  function LastBar(c: seq<Candle>, p: Params, t: int): int {
    if t + 1 + p.horizon <= |c| - 1 then t + 1 + p.horizon else |c| - 1
  }

  function MakeTrade(c: seq<Candle>, p: Params, t: int, side: Side, sma: real): Trade
    requires 0 <= t && t + 1 < |c| && sma > 0.0
  {
    var entry := c[t + 1].open;
    var stop := StopPrice(side, entry, AbsReal(entry - sma), p.slMult);
    var e := FirstExit(c, t + 2, LastBar(c, p, t), side, sma, stop);
    var pnl := PriceMove(side, entry, e.price) / entry * 10000.0 - 2.0 * p.feeBps;
    Trade(side, t + 1, entry, e.idx, e.price, e.reason, sma, (c[t].close - sma) / sma * 100.0, e.idx - (t + 1), pnl,
          Classify(pnl, p.neutralBand))
  }

  /** The bars that may signal: those whose whole holding period lies inside the data. */
  function Bound(c: seq<Candle>, p: Params): int {
    |c| - p.horizon - 2
  }

  function Offer(c: seq<Candle>, p: Params, t: int): Pick<Trade> {
    if !(p.smaWindow <= t < Bound(c, p)) then Skip
    else
      var sma := Sma(c, p, t);
      if sma <= 0.0 then Skip
      else
        match SignalSide((c[t].close - sma) / sma, p.devPct)
        case None => Skip
        case Some(side) =>
          if AbsReal(c[t + 1].open - sma) <= 0.0 then Skip
          else
            var trade := MakeTrade(c, p, t, side, sma);
            Take(trade.exitIdx, trade)
  }

  function Offers(c: seq<Candle>, p: Params): int -> Pick<Trade> {
    (t: int) => Offer(c, p, t)
  }

  lemma {:induction false} FirstExitInRange(c: seq<Candle>, k: int, last: int, side: Side, target: real, stop: real)
    requires 0 <= k && 0 <= last < |c|
    ensures var e := FirstExit(c, k, last, side, target, stop);
            e.idx == last || k <= e.idx <= last
    decreases last - k
  {
    if k <= last && ExitAt(c[k], k, side, target, stop).None? {
      FirstExitInRange(c, k + 1, last, side, target, stop);
    }
  }

  lemma OffersAreForward(c: seq<Candle>, p: Params)
    ensures Forward(Offers(c, p))
  {
    forall t | Offers(c, p)(t).Take? ensures Offers(c, p)(t).exit >= t {
      var sma := Sma(c, p, t);
      var side := SignalSide((c[t].close - sma) / sma, p.devPct).value;
      var entry := c[t + 1].open;
      FirstExitInRange(c, t + 2, LastBar(c, p, t), side, sma, StopPrice(side, entry, AbsReal(entry - sma), p.slMult));
    }
  }

  /** The simulator's result, as the walk over what each bar offers. */
  ghost function Simulation(c: seq<Candle>, p: Params): seq<Fill<Trade>> {
    OffersAreForward(c, p);
    if |c| < p.smaWindow + p.horizon + 2 then []
    else Scan(Offers(c, p), p.smaWindow, p.smaWindow, Bound(c, p), p.cooldown)
  }

  // ------------------------------------------------------------ the simulator as it runs

  /** The rolling averages, one addition and one subtraction a bar. Entries before the first
      full window stay unset. */
  method RollingSma(c: seq<Candle>, p: Params) returns (sma: seq<real>)
    requires |c| >= p.smaWindow
    ensures |sma| == |c|
    ensures forall t :: p.smaWindow - 1 <= t < |c| ==> sma[t] == Sma(c, p, t)
  {
    var w := p.smaWindow;
    var running := 0.0;
    for i := 0 to w
      invariant running == SumCloses(c, 0, i)
    {
      running := running + c[i].close;
    }
    sma := seq(w - 1, _ => 0.0) + [running / w as real];
    for t := w to |c|
      invariant |sma| == t && running == SumCloses(c, t - w, t)
      invariant forall u :: w - 1 <= u < t ==> sma[u] == Sma(c, p, u)
    {
      DropFirst(c, t - w, t + 1);
      running := running + c[t].close - c[t - w].close;
      sma := sma + [running / w as real];
    }
  }

  lemma {:induction false} DropFirst(c: seq<Candle>, lo: int, hi: int)
    requires 0 <= lo < hi <= |c|
    ensures SumCloses(c, lo, hi) == c[lo].close + SumCloses(c, lo + 1, hi)
    decreases hi - lo
  {
    if lo + 1 < hi {
      DropFirst(c, lo, hi - 1);
    }
  }

  method FindExit(c: seq<Candle>, entryIdx: int, last: int, side: Side, target: real, stop: real) returns (e: Exit)
    requires 0 <= entryIdx && 0 <= last < |c|
    ensures e == FirstExit(c, entryIdx + 1, last, side, target, stop)
  {
    var k := entryIdx + 1;
    while k <= last
      invariant entryIdx + 1 <= k
      invariant FirstExit(c, entryIdx + 1, last, side, target, stop) == FirstExit(c, k, last, side, target, stop)
      decreases last - k
    {
      var hitTp := HitsTarget(c[k], side, target);
      var hitSl := HitsStop(c[k], side, stop);
      if hitTp && hitSl {
        return Exit(k, stop, StopLoss);
      }
      if hitTp {
        return Exit(k, target, TakeProfit);
      }
      if hitSl {
        return Exit(k, stop, StopLoss);
      }
      k := k + 1;
    }
    e := Exit(last, c[last].close, Timeout);
  }

  /** One pass of the loop body on a bar that is free to signal. */
  method Evaluate(c: seq<Candle>, p: Params, t: int, sma: real) returns (pick: Pick<Trade>)
    requires p.smaWindow <= t < Bound(c, p) && sma == Sma(c, p, t)
    ensures pick == Offer(c, p, t)
  {
    if sma <= 0.0 {
      return Skip;
    }
    var deviation := (c[t].close - sma) / sma;
    var side := SignalSide(deviation, p.devPct);
    if side.None? {
      return Skip;
    }
    var entryIdx := t + 1;
    var entryPrice := c[entryIdx].open;
    var distance := AbsReal(entryPrice - sma);
    if distance <= 0.0 {
      return Skip;
    }
    var stop := StopPrice(side.value, entryPrice, distance, p.slMult);
    var e := FindExit(c, entryIdx, LastBar(c, p, t), side.value, sma, stop);
    var pnl := PriceMove(side.value, entryPrice, e.price) / entryPrice * 10000.0 - 2.0 * p.feeBps;
    pick := Take(e.idx, Trade(side.value, entryIdx, entryPrice, e.idx, e.price, e.reason, sma, deviation * 100.0,
                              e.idx - entryIdx, pnl, Classify(pnl, p.neutralBand)));
  }

  method Simulate(c: seq<Candle>, p: Params) returns (trades: seq<Fill<Trade>>)
    ensures trades == Simulation(c, p)
  {
    trades := [];
    if |c| < p.smaWindow + p.horizon + 2 {
      return;
    }
    var sma := RollingSma(c, p);
    hide Offer;
    OffersAreForward(c, p);
    ghost var whole, bound := Simulation(c, p), Bound(c, p);
    ghost var offers := Offers(c, p);
    var nextEligible: int, t: int := p.smaWindow, p.smaWindow;
    while t < |c| - p.horizon - 2
      invariant t >= p.smaWindow
      invariant Leads(whole, trades, offers, t, nextEligible, bound, p.cooldown)
      decreases |c| - t
    {
      if t < nextEligible {
        StepOver(whole, trades, offers, t, nextEligible, bound, p.cooldown);
        t := t + 1;
        continue;
      }
      var pick := Evaluate(c, p, t, sma[t]);
      assert offers(t) == pick;
      match pick
      case Skip =>
        StepOver(whole, trades, offers, t, nextEligible, bound, p.cooldown);
        t := t + 1;
      case Take(exit, trade) =>
        var fill := Fill(t, exit, trade);
        StepFills(whole, trades, fill, offers, nextEligible, bound, p.cooldown);
        trades := trades + [fill];
        nextEligible := exit + p.cooldown;
        t := exit + 1;
    }
  }

  // ------------------------------------------------------------ no look-ahead

  lemma {:induction false} SumClosesExtends(c: seq<Candle>, d: seq<Candle>, lo: int, hi: int)
    requires 0 <= lo <= hi <= |c|
    ensures SumCloses(c + d, lo, hi) == SumCloses(c, lo, hi)
    decreases hi - lo
  {
    if lo < hi {
      SumClosesExtends(c, d, lo, hi - 1);
    }
  }

  lemma {:induction false} FirstExitExtends(c: seq<Candle>, d: seq<Candle>, k: int, last: int, side: Side, target: real,
                                            stop: real)
    requires 0 <= k && 0 <= last < |c|
    ensures FirstExit(c + d, k, last, side, target, stop) == FirstExit(c, k, last, side, target, stop)
    decreases last - k
  {
    if k <= last && ExitAt(c[k], k, side, target, stop).None? {
      FirstExitExtends(c, d, k + 1, last, side, target, stop);
    }
  }

  /** A bar inside the bound offers the same whatever comes after the data: its exit scan ends
      at `t + 1 + horizon`, before the clamp to the last bar could bind. */
  lemma OfferExtends(c: seq<Candle>, d: seq<Candle>, p: Params, t: int)
    requires t < Bound(c, p)
    ensures Offer(c + d, p, t) == Offer(c, p, t)
    ensures 0 <= t ==> LastBar(c, p, t) == t + 1 + p.horizon
  {
    if p.smaWindow <= t {
      SumClosesExtends(c, d, t - p.smaWindow + 1, t + 1);
      var sma := Sma(c, p, t);
      if sma > 0.0 {
        var side := SignalSide((c[t].close - sma) / sma, p.devPct);
        if side.Some? {
          var entry := c[t + 1].open;
          var stop := StopPrice(side.value, entry, AbsReal(entry - sma), p.slMult);
          FirstExitExtends(c, d, t + 2, LastBar(c, p, t), side.value, sma, stop);
        }
      }
    }
  }

  /** No look-ahead, as a statement about whole runs: more candles never change, drop or
      reorder the trades already made, and only add trades signalled beyond the old bound. */
  lemma SimulationIsCausal(c: seq<Candle>, d: seq<Candle>, p: Params)
    ensures var a, b := Simulation(c, p), Simulation(c + d, p);
            && a <= b
            && forall i :: |a| <= i < |b| ==> b[i].signal >= Bound(c, p)
  {
    OffersAreForward(c, p);
    OffersAreForward(c + d, p);
    forall t | t < Bound(c, p) ensures Offers(c, p)(t) == Offers(c + d, p)(t) {
      OfferExtends(c, d, p, t);
    }
    ScanExtends(Offers(c, p), Offers(c + d, p), p.smaWindow, p.smaWindow, Bound(c, p), Bound(c + d, p), p.cooldown);
  }

  // ------------------------------------------------------------ the shape of a run

  /** The exit reported is the first bar in the holding window that reaches the target or the
      stop, the stop winning ties; without one it is the close of the window's last bar. For a
      long the target lies above and the stop below, for a short the other way round. */
  ghost predicate IsFirstHit(c: seq<Candle>, e: Exit, k: int, last: int, side: Side, target: real, stop: real)
    requires 0 <= k && 0 <= last < |c|
  {
    && 0 <= e.idx < |c|
    && (forall j :: k <= j < e.idx ==> Inside(c[j], side, target, stop))
    && match e.reason
       case StopLoss =>
         && k <= e.idx <= last && e.price == stop
         && (side == Long ==> c[e.idx].low <= stop) && (side == Short ==> c[e.idx].high >= stop)
       case TakeProfit =>
         && k <= e.idx <= last && e.price == target
         && (side == Long ==> c[e.idx].high >= target && c[e.idx].low > stop)
         && (side == Short ==> c[e.idx].low <= target && c[e.idx].high < stop)
       case Timeout =>
         && e.idx == last && e.price == c[last].close
         && (k <= last ==> Inside(c[last], side, target, stop))
  }

  /** The bar stays strictly between stop and target. */
  predicate Inside(bar: Candle, side: Side, target: real, stop: real) {
    && (side == Long ==> stop < bar.low && bar.high < target)
    && (side == Short ==> target < bar.low && bar.high < stop)
  }

  lemma {:induction false} FirstExitIsFirstHit(c: seq<Candle>, k: int, last: int, side: Side, target: real, stop: real)
    requires 0 <= k && 0 <= last < |c|
    ensures IsFirstHit(c, FirstExit(c, k, last, side, target, stop), k, last, side, target, stop)
    decreases last - k
  {
    if k <= last && ExitAt(c[k], k, side, target, stop).None? {
      FirstExitIsFirstHit(c, k + 1, last, side, target, stop);
    }
  }

  /** The closes that signal, in terms of the average: at or below it by `devPct` percent for a
      long; for a short, at or above it by as much (and not also a long, for a negative setting). */
  ghost predicate Signals(side: Side, close: real, sma: real, devPct: real) {
    var lower, upper := sma * (1.0 - devPct / 100.0), sma * (1.0 + devPct / 100.0);
    if side == Long then close <= lower else lower < close && upper <= close
  }

  lemma SideIsSignalled(close: real, sma: real, devPct: real)
    requires sma > 0.0
    ensures var side := SignalSide((close - sma) / sma, devPct);
            && (side == Some(Long) <==> Signals(Long, close, sma, devPct))
            && (side == Some(Short) <==> Signals(Short, close, sma, devPct))
  {
    var share, deviation := devPct / 100.0, (close - sma) / sma;
    DivThenTimes(close - sma, sma);
    var band := share * sma;
    assert sma * (1.0 - share) == sma - band && sma * (1.0 + share) == sma + band;
    ScaledOrder(deviation, -share, 0.0, sma, close - sma, -band, 0.0);
    ScaledOrder(deviation, share, 0.0, sma, close - sma, band, 0.0);
  }

  /** The profit in basis points of the entry, before fees: the rise for a long, the fall for a short. */
  function GrossBps(side: Side, entry: NonZero, exit: real): real {
    match side
    case Long => (exit - entry) / entry * 10000.0
    case Short => (entry - exit) / entry * 10000.0
  }

  /** Where the stop lies: `slMult` times the distance to the average from the entry, against the trade. */
  ghost predicate IsStop(stop: real, side: Side, entry: real, sma: real, slMult: real) {
    var distance := if entry >= sma then entry - sma else sma - entry;
    && (side == Long ==> stop == entry - slMult * distance)
    && (side == Short ==> stop == entry + slMult * distance)
  }

  /** A stop costs exactly `slMult` times the distance to the average. A target pays that
      distance when the entry is on the signal's side of the average, and costs it when the
      next open has already jumped across. */
  ghost predicate MoveFacts(trade: Trade, slMult: real) {
    var distance := if trade.entryPrice >= trade.sma then trade.entryPrice - trade.sma
                    else trade.sma - trade.entryPrice;
    var gain := if trade.side == Long then trade.exitPrice - trade.entryPrice else trade.entryPrice - trade.exitPrice;
    var onSignalSide := if trade.side == Long then trade.entryPrice < trade.sma else trade.entryPrice > trade.sma;
    && (trade.reason == StopLoss ==> gain == -(slMult * distance))
    && (trade.reason == TakeProfit ==> gain == if onSignalSide then distance else -distance)
  }

  lemma MovesFollowPrices(trade: Trade, slMult: real)
    requires var stop := StopPrice(trade.side, trade.entryPrice, AbsReal(trade.entryPrice - trade.sma), slMult);
             (trade.reason == StopLoss ==> trade.exitPrice == stop)
    requires trade.reason == TakeProfit ==> trade.exitPrice == trade.sma
    ensures MoveFacts(trade, slMult)
  {
  }

  /** What holds of every trade the simulator makes, read off the candles alone. */
  ghost predicate TradeFacts(c: seq<Candle>, p: Params, f: Fill<Trade>) {
    EntryFacts(c, p, f) && ExitFacts(c, p, f) && PaidFacts(f.trade, p)
  }

  ghost predicate EntryFacts(c: seq<Candle>, p: Params, f: Fill<Trade>) {
    var t, trade := f.signal, f.trade;
    && p.smaWindow <= t < |c| - p.horizon - 2
    && trade.entryIdx == t + 1 && trade.entryPrice == c[t + 1].open
    && trade.sma == Sma(c, p, t) > 0.0
    && trade.entryPrice != trade.sma
    && Signals(trade.side, c[t].close, trade.sma, p.devPct)
    && trade.deviationPct * trade.sma == (c[t].close - trade.sma) * 100.0
  }

  ghost predicate ExitFacts(c: seq<Candle>, p: Params, f: Fill<Trade>) {
    var t, trade := f.signal, f.trade;
    && p.smaWindow <= t < |c| - p.horizon - 2
    && trade.exitIdx == f.exit && trade.barsHeld == f.exit - (t + 1)
    && (exists stop: real :: IsStop(stop, trade.side, trade.entryPrice, trade.sma, p.slMult)
          && IsFirstHit(c, Exit(f.exit, trade.exitPrice, trade.reason), t + 2, t + 1 + p.horizon, trade.side, trade.sma,
                        stop))
    && MoveFacts(trade, p.slMult)
  }

  ghost predicate PaidFacts(trade: Trade, p: Params) {
    && trade.pnlBps == GrossBps(trade.side, trade.entryPrice, trade.exitPrice) - 2.0 * p.feeBps
    && OutcomeFacts(trade, p.neutralBand)
  }

  /** A win pays at least the band, a loss costs at least as much (and pays less than the band). */
  ghost predicate OutcomeFacts(trade: Trade, band: real) {
    && (trade.outcome == Win <==> trade.pnlBps >= band)
    && (trade.outcome == Loss <==> trade.pnlBps < band && trade.pnlBps <= -band)
  }

  lemma DeviationFacts(close: real, sma: real, deviationPct: real)
    requires sma > 0.0 && deviationPct == (close - sma) / sma * 100.0
    ensures deviationPct * sma == (close - sma) * 100.0
  {
    var q := (close - sma) / sma;
    DivThenTimes(close - sma, sma);
    assert q * 100.0 * sma == q * sma * 100.0;
  }

  lemma TradeIsPaid(c: seq<Candle>, p: Params, t: int, side: Side, sma: real)
    requires 0 <= t && t + 1 < |c| && sma > 0.0
    ensures PaidFacts(MakeTrade(c, p, t, side, sma), p)
  {
  }

  lemma TradeIsEntered(c: seq<Candle>, p: Params, t: int, side: Side, sma: real)
    requires p.smaWindow <= t < Bound(c, p) && sma == Sma(c, p, t) > 0.0
    requires c[t + 1].open != sma && Signals(side, c[t].close, sma, p.devPct)
    ensures var trade := MakeTrade(c, p, t, side, sma); EntryFacts(c, p, Fill(t, trade.exitIdx, trade))
  {
    DeviationFacts(c[t].close, sma, MakeTrade(c, p, t, side, sma).deviationPct);
  }

  lemma TradeIsLeft(c: seq<Candle>, p: Params, t: int, side: Side, sma: real)
    requires p.smaWindow <= t < Bound(c, p) && sma > 0.0
    ensures var trade := MakeTrade(c, p, t, side, sma); ExitFacts(c, p, Fill(t, trade.exitIdx, trade))
  {
    var trade := MakeTrade(c, p, t, side, sma);
    var stop := StopPrice(side, trade.entryPrice, AbsReal(trade.entryPrice - sma), p.slMult);
    assert LastBar(c, p, t) == t + 1 + p.horizon;
    FirstExitIsFirstHit(c, t + 2, LastBar(c, p, t), side, sma, stop);
    assert IsStop(stop, side, trade.entryPrice, sma, p.slMult);
    assert trade.reason == StopLoss ==> trade.exitPrice == stop;
    assert trade.reason == TakeProfit ==> trade.exitPrice == sma;
    hide IsFirstHit, StopPrice, FirstExit;
    MovesFollowPrices(trade, p.slMult);
  }

  lemma OfferFacts(c: seq<Candle>, p: Params, t: int)
    requires Offer(c, p, t).Take?
    ensures TradeFacts(c, p, Fill(t, Offer(c, p, t).exit, Offer(c, p, t).trade))
  {
    var sma := Sma(c, p, t);
    SideIsSignalled(c[t].close, sma, p.devPct);
    var side := SignalSide((c[t].close - sma) / sma, p.devPct).value;
    TradeIsEntered(c, p, t, side, sma);
    TradeIsLeft(c, p, t, side, sma);
    TradeIsPaid(c, p, t, side, sma);
  }

  /** The average is that of the window's closes: it lies between any bounds on all of them. */
  lemma AverageIsBounded(c: seq<Candle>, p: Params, t: int, least: real, most: real)
    requires p.smaWindow - 1 <= t < |c|
    requires forall i :: t - p.smaWindow < i <= t ==> least <= c[i].close <= most
    ensures least <= Sma(c, p, t) <= most
  {
    var n, sum := p.smaWindow as real, SumCloses(c, t - p.smaWindow + 1, t + 1);
    SumIsBounded(c, t - p.smaWindow + 1, t + 1, least, most);
    DivThenTimes(sum, n);
    ScaledOrder(Sma(c, p, t), least, 0.0, n, sum, least * n, 0.0);
    ScaledOrder(Sma(c, p, t), most, 0.0, n, sum, most * n, 0.0);
  }

  lemma {:induction false} SumIsBounded(c: seq<Candle>, lo: int, hi: int, least: real, most: real)
    requires 0 <= lo <= hi <= |c|
    requires forall i :: lo <= i < hi ==> least <= c[i].close <= most
    ensures least * (hi - lo) as real <= SumCloses(c, lo, hi) <= most * (hi - lo) as real
    decreases hi - lo
  {
    if lo < hi {
      SumIsBounded(c, lo, hi - 1, least, most);
      OneMoreTimes(least, (hi - 1 - lo) as real, (hi - lo) as real);
      OneMoreTimes(most, (hi - 1 - lo) as real, (hi - lo) as real);
    }
  }

  /** Which bars offer a trade: those inside the bounds with a positive average, a close that
      signals either way, and a next open off the average. */
  lemma OffersExactly(c: seq<Candle>, p: Params, t: int)
    ensures Offer(c, p, t).Take?
            <==> && p.smaWindow <= t < |c| - p.horizon - 2
                 && Sma(c, p, t) > 0.0 && c[t + 1].open != Sma(c, p, t)
                 && (Signals(Long, c[t].close, Sma(c, p, t), p.devPct)
                     || Signals(Short, c[t].close, Sma(c, p, t), p.devPct))
  {
    if p.smaWindow <= t < |c| - p.horizon - 2 && Sma(c, p, t) > 0.0 {
      SideIsSignalled(c[t].close, Sma(c, p, t), p.devPct);
    }
  }

  /** The whole run: the fills are the one greedy selection among what the bars offer, and
      every one of them has the facts above. In particular a trade's entry comes at least
      1 + max(1, cooldown) bars after the exit before it. */
  lemma SimulationStructure(c: seq<Candle>, p: Params)
    ensures var fills := Simulation(c, p);
            && IsGreedy(fills, Offers(c, p), p.smaWindow, Bound(c, p), p.cooldown)
            && (forall i :: 0 <= i < |fills| ==> TradeFacts(c, p, fills[i]))
            && (forall i :: 0 < i < |fills| ==>
                  fills[i].trade.entryIdx >= fills[i - 1].trade.exitIdx + 1 + Max(1, p.cooldown))
  {
    OffersAreForward(c, p);
    ScanIsGreedy(Offers(c, p), p.smaWindow, p.smaWindow, Bound(c, p), p.cooldown);
    var fills := Simulation(c, p);
    forall i | 0 <= i < |fills| ensures TradeFacts(c, p, fills[i]) {
      assert Offered(fills[i], Offers(c, p));
      OfferFacts(c, p, fills[i].signal);
    }
    forall i | 0 < i < |fills|
      ensures fills[i].trade.entryIdx >= fills[i - 1].trade.exitIdx + 1 + Max(1, p.cooldown)
    {
      assert TradeFacts(c, p, fills[i]) && TradeFacts(c, p, fills[i - 1]);
      assert FreeAfter(fills[i - 1], p.cooldown) <= fills[i].signal;
    }
  }
}
