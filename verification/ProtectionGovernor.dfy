/** The live-position governor: normalising protection legs, building the status row, and
    recommending the next stop or target. Run again and again against moving prices, its
    suggestion becoming the next active protection, it must only ever tighten a stop. */
module ProtectionGovernor {
  import opened Basics
  import opened Grid

  const PRICE_UNIT: real := 0.0000000001
  const BPS_UNIT: real := 0.000001
  const STOP_SLACK: real := 0.000000001

  datatype Side = Long | Short | Flat

  datatype Leg = Leg(trigger: real, workingType: string, orderType: string)

  datatype Protection = Protection(stop: Option<Leg>, takeProfit: Option<Leg>)

  datatype Position = Position(side: Side, entry: real, mark: real)

  /** Policy values as configured, before the governor's own floors. */
  datatype Policy = Policy(breakeven: real, trailing: real, buffer: real, maxAdverse: real)

  datatype StatusRow = StatusRow(
    side: Side,
    entry: real,
    mark: real,
    pnlBps: real,
    liveTruth: bool,
    active: Protection)

  datatype Action =
    Hold | NoActionStale | ForceClose | ArmStopLoss | MoveStopToBreakeven | TrailStop | ArmTakeProfit

  datatype Verdict = Verdict(action: Action, suggested: Protection)

  function RoundPrice(x: real): real {
    RoundTo(x, PRICE_UNIT)
  }

  /** A leg without a positive trigger is no leg. */
  function NormalizeLeg(leg: Option<Leg>): Option<Leg> {
    if leg.None? || leg.value.trigger <= 0.0 then None
    else Some(leg.value.(trigger := RoundPrice(leg.value.trigger)))
  }

  function NormalizeProtection(p: Protection): Protection {
    Protection(NormalizeLeg(p.stop), NormalizeLeg(p.takeProfit))
  }

  /** Profit in basis points of the entry; zero where the source has none to report. */
  function PnlBps(p: Position): real {
    if p.entry <= 0.0 || p.mark <= 0.0 || p.side == Flat then 0.0
    else (if p.side == Long then 1.0 else -1.0) * ((p.mark - p.entry) / p.entry) * 10000.0
  }

  function BuildStatus(p: Position, active: Protection, liveTruth: bool): StatusRow {
    StatusRow(p.side, RoundPrice(p.entry), RoundPrice(p.mark), RoundTo(PnlBps(p), BPS_UNIT), liveTruth,
              NormalizeProtection(active))
  }

  // ------------------------------------------------------------ the decision as a case table

  function BreakevenTrigger(policy: Policy): real {
    MaxReal(1.0, policy.breakeven)
  }

  function TrailingTrigger(policy: Policy): real {
    MaxReal(BreakevenTrigger(policy), policy.trailing)
  }

  /** A price some basis points below, or above, the mark. */
  function Below(mark: real, bps: real): real {
    mark * (1.0 - bps / 10000.0)
  }

  function Above(mark: real, bps: real): real {
    mark * (1.0 + bps / 10000.0)
  }

  function TrailingStop(row: StatusRow, policy: Policy): real {
    var buffer := MaxReal(1.0, policy.buffer);
    if row.side == Long then Below(row.mark, buffer) else Above(row.mark, buffer)
  }

  predicate Priced(row: StatusRow) {
    row.entry > 0.0 && row.mark > 0.0
  }

  predicate MovesToBreakeven(row: StatusRow, policy: Policy) {
    && row.active.stop.Some? && Priced(row) && row.pnlBps >= BreakevenTrigger(policy)
    && var stop := row.active.stop.value.trigger;
       (row.side == Long && stop + STOP_SLACK < row.entry) || (row.side == Short && stop - STOP_SLACK > row.entry)
  }

  predicate Trails(row: StatusRow, policy: Policy) {
    && row.active.stop.Some? && Priced(row) && row.pnlBps >= TrailingTrigger(policy)
    && var stop := row.active.stop.value.trigger;
       var trailing := TrailingStop(row, policy);
       || (row.side == Long && trailing > MaxReal(stop, row.entry))
       || (row.side == Short && (stop <= 0.0 || trailing < MinReal(stop, row.entry)))
  }

  function TakeProfitTrigger(row: StatusRow): real
    requires row.active.stop.Some?
  {
    var risk := AbsReal(row.entry - row.active.stop.value.trigger);
    if row.side == Long then row.entry + risk * 2.0 else row.entry - risk * 2.0
  }

  predicate ArmsTakeProfit(row: StatusRow) {
    && row.active.takeProfit.None? && row.active.stop.Some? && row.entry > 0.0
    && row.entry != row.active.stop.value.trigger
    && TakeProfitTrigger(row) > 0.0
  }

  function DecideAction(row: StatusRow, policy: Policy): Action {
    if !row.liveTruth then NoActionStale
    else if row.active.stop.None? then
      (if row.pnlBps <= -MaxReal(1.0, policy.maxAdverse) then ForceClose else ArmStopLoss)
    else if MovesToBreakeven(row, policy) then MoveStopToBreakeven
    else if Trails(row, policy) then TrailStop
    else if ArmsTakeProfit(row) then ArmTakeProfit
    else Hold
  }

  function Govern(row: StatusRow, policy: Policy): Verdict {
    var action := DecideAction(row, policy);
    var stop := match action
      case MoveStopToBreakeven => Some(row.active.stop.value.(trigger := RoundPrice(row.entry)))
      case TrailStop => Some(row.active.stop.value.(trigger := RoundPrice(TrailingStop(row, policy))))
      case _ => row.active.stop;
    var takeProfit := if action == ArmTakeProfit
                      then Some(Leg(RoundPrice(TakeProfitTrigger(row)), "MARK_PRICE", "MARKET"))
                      else row.active.takeProfit;
    Verdict(action, Protection(stop, takeProfit))
  }

  /** The governor as it runs: one staged pass that starts from HOLD and lets later stages
      speak only while nothing earlier did. It computes the case table above. */
  method BuildGovernor(row: StatusRow, policy: Policy) returns (verdict: Verdict)
    ensures verdict == Govern(row, policy)
  {
    var breakevenTrigger := MaxReal(1.0, policy.breakeven);
    var trailingTrigger := MaxReal(breakevenTrigger, policy.trailing);
    var buffer := MaxReal(1.0, policy.buffer);
    var maxAdverse := MaxReal(1.0, policy.maxAdverse);
    var activeStop := row.active.stop;
    var action := Hold;
    var suggestedStop: Option<Leg>, suggestedTp: Option<Leg> := None, None;

    if !row.liveTruth {
      action := NoActionStale;
    } else if activeStop.None? && row.pnlBps <= -maxAdverse {
      action := ForceClose;
    } else if activeStop.None? {
      action := ArmStopLoss;
    } else if row.entry > 0.0 && row.mark > 0.0 && row.pnlBps >= breakevenTrigger {
      var current := activeStop.value.trigger;
      if row.side == Long && current + STOP_SLACK < row.entry {
        action := MoveStopToBreakeven;
        suggestedStop := Some(activeStop.value.(trigger := RoundPrice(row.entry)));
      } else if row.side == Short && current - STOP_SLACK > row.entry {
        action := MoveStopToBreakeven;
        suggestedStop := Some(activeStop.value.(trigger := RoundPrice(row.entry)));
      }
    }

    if action == Hold && row.entry > 0.0 && row.mark > 0.0 && row.pnlBps >= trailingTrigger && activeStop.Some? {
      var current := activeStop.value.trigger;
      if row.side == Long {
        var trailing := Below(row.mark, buffer);
        if trailing > MaxReal(current, row.entry) {
          action := TrailStop;
          suggestedStop := Some(activeStop.value.(trigger := RoundPrice(trailing)));
        }
      } else if row.side == Short {
        var trailing := Above(row.mark, buffer);
        if current <= 0.0 || trailing < MinReal(current, row.entry) {
          action := TrailStop;
          suggestedStop := Some(activeStop.value.(trigger := RoundPrice(trailing)));
        }
      }
    }

    if action == Hold && row.active.takeProfit.None? && activeStop.Some? && row.entry > 0.0 {
      var risk := AbsReal(row.entry - activeStop.value.trigger);
      if risk > 0.0 {
        var trigger := if row.side == Long then row.entry + risk * 2.0 else row.entry - risk * 2.0;
        if trigger > 0.0 {
          action := ArmTakeProfit;
          suggestedTp := Some(Leg(RoundPrice(trigger), "MARK_PRICE", "MARKET"));
        }
      }
    }

    if activeStop.Some? && suggestedStop.None? {
      suggestedStop := activeStop;
    }
    if row.active.takeProfit.Some? && suggestedTp.None? {
      suggestedTp := row.active.takeProfit;
    }
    verdict := Verdict(action, Protection(suggestedStop, suggestedTp));
  }

  // ------------------------------------------------------------ one recommendation

  lemma ProfitHasASide(p: Position)
    requires PnlBps(p) > 0.0
    ensures p.side != Flat && (if p.side == Long then p.entry < p.mark else p.mark < p.entry)
  {
    var q := (p.mark - p.entry) / p.entry;
    DivThenTimes(p.mark - p.entry, p.entry);
    ProductSign(q, p.entry);
  }

  /** A reported profit of at least a basis point means the mark has passed the entry. */
  lemma ProfitMeansBeyondEntry(p: Position)
    requires RoundTo(PnlBps(p), BPS_UNIT) >= 1.0
    ensures p.side == Long ==> RoundPrice(p.entry) <= RoundPrice(p.mark)
    ensures p.side == Short ==> RoundPrice(p.mark) <= RoundPrice(p.entry)
    ensures p.side != Flat
  {
    RoundToNearest(PnlBps(p), BPS_UNIT);
    ProfitHasASide(p);
    if p.side == Long {
      RoundToMonotone(p.entry, p.mark, PRICE_UNIT);
    } else {
      RoundToMonotone(p.mark, p.entry, PRICE_UNIT);
    }
  }

  ghost predicate GridLeg(leg: Option<Leg>) {
    leg.Some? ==> OnGrid(leg.value.trigger, PRICE_UNIT) && leg.value.trigger >= 0.0
  }

  lemma NormalizedLegOnGrid(leg: Option<Leg>)
    ensures GridLeg(NormalizeLeg(leg))
  {
    if leg.Some? && leg.value.trigger > 0.0 {
      RoundToNearest(leg.value.trigger, PRICE_UNIT);
      assert 0.0 == Multiple(0, PRICE_UNIT);
      RoundToKeepsBound(leg.value.trigger, 0.0, PRICE_UNIT);
    }
  }

  /** A trailing stop stays on its own side of the mark, and rounding keeps it beyond any
      grid price it was beyond before. */
  lemma TrailingStopBounds(row: StatusRow, policy: Policy)
    requires row.mark > 0.0 && OnGrid(row.mark, PRICE_UNIT) && row.side != Flat
    ensures row.side == Long ==> RoundPrice(TrailingStop(row, policy)) <= row.mark
    ensures row.side == Short ==> row.mark <= RoundPrice(TrailingStop(row, policy))
  {
    var share := MaxReal(1.0, policy.buffer) / 10000.0;
    ProductSign(share, row.mark);
    var moved := share * row.mark;
    assert row.mark * (1.0 - share) == row.mark - moved;
    assert row.mark * (1.0 + share) == row.mark + moved;
    RoundToKeepsBound(TrailingStop(row, policy), row.mark, PRICE_UNIT);
  }

  lemma TakeProfitOnGrid(row: StatusRow)
    requires row.active.stop.Some? && GridLeg(row.active.stop) && OnGrid(row.entry, PRICE_UNIT)
    ensures RoundPrice(TakeProfitTrigger(row)) == TakeProfitTrigger(row)
    ensures OnGrid(TakeProfitTrigger(row), PRICE_UNIT)
  {
    var e: int :| row.entry == Multiple(e, PRICE_UNIT);
    var t: int :| row.active.stop.value.trigger == Multiple(t, PRICE_UNIT);
    var risk := if e >= t then e - t else t - e;
    var k := if row.side == Long then e + 2 * risk else e - 2 * risk;
    assert TakeProfitTrigger(row) == Multiple(k, PRICE_UNIT);
    RoundToOnGrid(TakeProfitTrigger(row), PRICE_UNIT);
  }

  /** Everything one recommendation guarantees, from raw positions and raw active legs. */
  lemma RecommendationIsSafe(p: Position, active: Protection, liveTruth: bool, policy: Policy)
    ensures var row := BuildStatus(p, active, liveTruth);
            var v := Govern(row, policy);
            && (row.active.stop.Some? <==> v.suggested.stop.Some?)
            && (row.active.takeProfit.Some? ==> v.suggested.takeProfit == row.active.takeProfit)
            && GridLeg(v.suggested.stop) && GridLeg(v.suggested.takeProfit)
    ensures var row := BuildStatus(p, active, liveTruth);
            var v := Govern(row, policy);
            row.active.stop.Some? && v.suggested.stop != row.active.stop ==>
              var now := v.suggested.stop.value.trigger;
              && now > 0.0
              && (p.side == Long ==> row.active.stop.value.trigger <= now && row.entry <= now <= row.mark)
              && (p.side == Short ==> row.mark <= now)
              && p.side != Flat
    ensures var row := BuildStatus(p, active, liveTruth);
            var v := Govern(row, policy);
            p.side == Short && row.active.stop.Some? ==>
              (v.suggested.stop.value.trigger <= row.active.stop.value.trigger
               <==> row.active.stop.value.trigger > 0.0 || v.action != TrailStop)
    ensures var row := BuildStatus(p, active, liveTruth);
            var v := Govern(row, policy);
            v.action == ArmTakeProfit ==>
              var tp := v.suggested.takeProfit.value.trigger;
              && tp > 0.0
              && (p.side == Long ==> tp > row.entry && tp > v.suggested.stop.value.trigger)
              && (p.side != Long ==> tp < row.entry && tp < v.suggested.stop.value.trigger)
  {
    var row := BuildStatus(p, active, liveTruth);
    RoundToNearest(p.entry, PRICE_UNIT);
    RoundToNearest(p.mark, PRICE_UNIT);
    NormalizedLegOnGrid(active.stop);
    NormalizedLegOnGrid(active.takeProfit);
    var action := DecideAction(row, policy);
    if action == MoveStopToBreakeven {
      ProfitMeansBeyondEntry(p);
      RoundToOnGrid(row.entry, PRICE_UNIT);
    } else if action == TrailStop {
      ProfitMeansBeyondEntry(p);
      var trailing := TrailingStop(row, policy);
      TrailingStopBounds(row, policy);
      RoundToNearest(trailing, PRICE_UNIT);
      RoundToKeepsBound(trailing, row.entry, PRICE_UNIT);
      RoundToKeepsBound(trailing, row.active.stop.value.trigger, PRICE_UNIT);
    } else if action == ArmTakeProfit {
      TakeProfitOnGrid(row);
    }
  }

  // ------------------------------------------------------------ which action, and what it suggests

  /** The profit in basis points of the entry: the rise for a long, the fall for a short; none
      to speak of without both prices or a side. */
  ghost predicate IsGain(p: Position, gain: real) {
    if p.entry <= 0.0 || p.mark <= 0.0 then gain == 0.0
    else
      match p.side
      case Long => gain * p.entry == (p.mark - p.entry) * 10000.0
      case Short => gain * p.entry == (p.entry - p.mark) * 10000.0
      case Flat => gain == 0.0
  }

  lemma GainIsPnl(p: Position, gain: real)
    ensures IsGain(p, gain) <==> gain == PnlBps(p)
  {
    if p.entry > 0.0 && p.mark > 0.0 && p.side != Flat {
      var sign, q := if p.side == Long then 1.0 else -1.0, (p.mark - p.entry) / p.entry;
      DivThenTimes(p.mark - p.entry, p.entry);
      SignedProduct(sign, q, p.entry, p.mark - p.entry);
      ScaledOrder(gain, sign * q * 10000.0, 0.0, p.entry, gain * p.entry, sign * q * 10000.0 * p.entry, 0.0);
    }
  }

  lemma SignedProduct(sign: real, q: real, entry: real, rise: real)
    requires q * entry == rise && (sign == 1.0 || sign == -1.0)
    ensures sign * q * 10000.0 * entry == if sign == 1.0 then rise * 10000.0 else -(rise * 10000.0)
  {
  }

  predicate HasLeg(leg: Option<Leg>) {
    leg.Some? && leg.value.trigger > 0.0
  }

  /** A position with live data and a stop, as far as the later stages look at it: the prices to
      ten decimals, the profit to six, the stop's trigger to ten. */
  datatype View = View(side: Side, entry: real, mark: real, gain: real, stop: real)

  ghost predicate IsView(v: View, p: Position, active: Protection) {
    && HasLeg(active.stop)
    && v.side == p.side && v.entry == RoundPrice(p.entry) && v.mark == RoundPrice(p.mark)
    && v.stop == RoundPrice(active.stop.value.trigger)
    && exists gain: real :: IsGain(p, gain) && v.gain == RoundTo(gain, BPS_UNIT)
  }

  /** The stop may move up to the entry: enough profit, and more than the slack still to go. */
  ghost predicate BreakevenIsDue(v: View, policy: Policy) {
    && v.entry > 0.0 && v.mark > 0.0 && v.gain >= 1.0 && v.gain >= policy.breakeven
    && match v.side
       case Long => v.entry - v.stop > STOP_SLACK
       case Short => v.stop - v.entry > STOP_SLACK
       case Flat => false
  }

  /** The price trailing the mark by the buffer, at least a basis point. */
  ghost predicate IsTrailing(price: real, v: View, policy: Policy) {
    var buffer := if policy.buffer > 1.0 then policy.buffer else 1.0;
    match v.side
    case Long => price == v.mark - v.mark * (buffer / 10000.0)
    case Short => price == v.mark + v.mark * (buffer / 10000.0)
    case Flat => false
  }

  /** The stop may trail: more profit, and the trailing price beats both stop and entry (for a
      short a stop that reads as zero counts as beaten). */
  ghost predicate TrailingIsDue(v: View, policy: Policy) {
    && v.entry > 0.0 && v.mark > 0.0
    && v.gain >= 1.0 && v.gain >= policy.breakeven && v.gain >= policy.trailing
    && exists price: real :: IsTrailing(price, v, policy) &&
         match v.side
         case Long => price > v.stop && price > v.entry
         case Short => v.stop <= 0.0 || (price < v.stop && price < v.entry)
         case Flat => false
  }

  /** The target at twice the risk, above the entry for a long and below it otherwise. */
  function TargetAtTwiceTheRisk(v: View): real {
    var risk := if v.entry >= v.stop then v.entry - v.stop else v.stop - v.entry;
    if v.side == Long then v.entry + risk + risk else v.entry - risk - risk
  }

  ghost predicate TargetIsDue(v: View, active: Protection) {
    !HasLeg(active.takeProfit) && v.entry > 0.0 && v.entry != v.stop && TargetAtTwiceTheRisk(v) > 0.0
  }

  /** Without a stop: the action depends on the data being live and on the loss alone. */
  lemma WithoutStop(p: Position, active: Protection, liveTruth: bool, policy: Policy, gain: real)
    requires IsGain(p, gain)
    ensures var action, loss := Govern(BuildStatus(p, active, liveTruth), policy).action, -RoundTo(gain, BPS_UNIT);
            && (action == NoActionStale <==> !liveTruth)
            && (action == ForceClose <==>
                  liveTruth && !HasLeg(active.stop) && loss >= 1.0 && loss >= policy.maxAdverse)
            && (action == ArmStopLoss <==>
                  liveTruth && !HasLeg(active.stop) && (loss < 1.0 || loss < policy.maxAdverse))
  {
    GainIsPnl(p, gain);
  }

  /** A position in profit, or at its entry, is never force-closed. */
  lemma ProfitIsNeverClosed(p: Position, active: Protection, liveTruth: bool, policy: Policy)
    requires p.entry > 0.0 && p.mark > 0.0
    requires (p.side == Long ==> p.mark >= p.entry) && (p.side == Short ==> p.mark <= p.entry)
    ensures Govern(BuildStatus(p, active, liveTruth), policy).action != ForceClose
  {
    var gain := PnlBps(p);
    GainIsPnl(p, gain);
    ProductSign(gain, p.entry);
    RoundToKeepsBound(gain, 0.0, BPS_UNIT) by {
      assert 0.0 == Multiple(0, BPS_UNIT);
    }
    WithoutStop(p, active, liveTruth, policy, gain);
  }

  lemma TrailingIsUnique(row: StatusRow, v: View, policy: Policy, price: real)
    requires v.side == row.side != Flat && v.mark == row.mark
    ensures IsTrailing(price, v, policy) <==> price == TrailingStop(row, policy)
  {
    var buffer := if policy.buffer > 1.0 then policy.buffer else 1.0;
    var share := buffer / 10000.0;
    assert v.mark * (1.0 - share) == v.mark - v.mark * share;
    assert v.mark * (1.0 + share) == v.mark + v.mark * share;
  }

  /** With live data and a stop: breakeven before trailing before the target, each exactly when due. */
  lemma WithStop(p: Position, active: Protection, policy: Policy, v: View)
    requires IsView(v, p, active)
    ensures var action := Govern(BuildStatus(p, active, true), policy).action;
            action == if BreakevenIsDue(v, policy) then MoveStopToBreakeven
                      else if TrailingIsDue(v, policy) then TrailStop
                      else if TargetIsDue(v, active) then ArmTakeProfit
                      else Hold
  {
    var row := BuildStatus(p, active, true);
    var gain: real :| IsGain(p, gain) && v.gain == RoundTo(gain, BPS_UNIT);
    GainIsPnl(p, gain);
    assert BreakevenIsDue(v, policy) == MovesToBreakeven(row, policy);
    if v.side != Flat {
      TrailingIsUnique(row, v, policy, TrailingStop(row, policy));
      forall price: real | IsTrailing(price, v, policy) ensures price == TrailingStop(row, policy) {
        TrailingIsUnique(row, v, policy, price);
      }
    }
    assert TrailingIsDue(v, policy) == Trails(row, policy);
  }

  /** The leg as read: the trigger to ten decimals, all else kept. */
  ghost predicate IsRead(read: Option<Leg>, leg: Option<Leg>) {
    if HasLeg(leg) then read == Some(Leg(RoundPrice(leg.value.trigger), leg.value.workingType, leg.value.orderType))
    else read == None
  }

  /** What is suggested: the entry, the trailing price or the target at twice the risk where that
      is the action, and every other leg as it was read. */
  lemma SuggestsExactly(p: Position, active: Protection, liveTruth: bool, policy: Policy)
    ensures var verdict := Govern(BuildStatus(p, active, liveTruth), policy);
            && (verdict.action !in {MoveStopToBreakeven, TrailStop} ==> IsRead(verdict.suggested.stop, active.stop))
            && (verdict.action != ArmTakeProfit ==> IsRead(verdict.suggested.takeProfit, active.takeProfit))
            && (verdict.action in {MoveStopToBreakeven, TrailStop} ==>
                  HasLeg(active.stop) && verdict.suggested.stop.Some?
                  && verdict.suggested.stop.value.workingType == active.stop.value.workingType
                  && verdict.suggested.stop.value.orderType == active.stop.value.orderType)
    ensures forall v: View | IsView(v, p, active) ::
              var verdict := Govern(BuildStatus(p, active, liveTruth), policy);
              && (verdict.action == MoveStopToBreakeven ==> verdict.suggested.stop.value.trigger == v.entry)
              && (verdict.action == TrailStop ==>
                    exists price: real :: IsTrailing(price, v, policy)
                                          && verdict.suggested.stop.value.trigger == RoundPrice(price))
              && (verdict.action == ArmTakeProfit ==>
                    verdict.suggested.takeProfit == Some(Leg(TargetAtTwiceTheRisk(v), "MARK_PRICE", "MARKET")))
  {
    var row := BuildStatus(p, active, liveTruth);
    RoundToNearest(p.entry, PRICE_UNIT);
    RoundToOnGrid(row.entry, PRICE_UNIT);
    NormalizedLegOnGrid(active.stop);
    forall v: View | IsView(v, p, active)
      ensures var verdict := Govern(row, policy);
              && (verdict.action == MoveStopToBreakeven ==> verdict.suggested.stop.value.trigger == v.entry)
              && (verdict.action == TrailStop ==>
                    exists price: real :: IsTrailing(price, v, policy)
                                          && verdict.suggested.stop.value.trigger == RoundPrice(price))
              && (verdict.action == ArmTakeProfit ==>
                    verdict.suggested.takeProfit == Some(Leg(TargetAtTwiceTheRisk(v), "MARK_PRICE", "MARKET")))
    {
      if v.side != Flat {
        TrailingIsUnique(row, v, policy, TrailingStop(row, policy));
      }
      if Govern(row, policy).action == ArmTakeProfit {
        TakeProfitOnGrid(row);
      }
    }
  }

  // ------------------------------------------------------------ whole runs

  datatype Tick = Tick(position: Position, liveTruth: bool, policy: Policy)

  function Next(active: Protection, tick: Tick): Protection {
    Govern(BuildStatus(tick.position, active, tick.liveTruth), tick.policy).suggested
  }

  /** The protections a run goes through: each suggestion is armed and becomes the active
      protection that the next status row normalises. */
  function Run(active: Protection, ticks: seq<Tick>): (states: seq<Protection>)
    ensures |states| == |ticks| + 1
    decreases |ticks|
  {
    var current := NormalizeProtection(active);
    if ticks == [] then [current]
    else
      [current] + Run(Next(active, ticks[0]), ticks[1..])
  }

  /** From `a` to `b` no leg is lost, the stop only tightened, and an armed target stayed put. */
  predicate Tightens(side: Side, a: Protection, b: Protection) {
    && (a.stop.Some? <==> b.stop.Some?)
    && (a.stop.Some? && side == Long ==> a.stop.value.trigger <= b.stop.value.trigger)
    && (a.stop.Some? && side == Short ==> b.stop.value.trigger <= a.stop.value.trigger)
    && (a.stop.Some? && side == Flat ==> a.stop == b.stop)
    && (a.takeProfit.Some? ==> b.takeProfit == a.takeProfit)
  }

  /** Triggers that survive the governor's ten-decimal rounding: those above half a unit
      (half-way cases round to zero). */
  predicate Representable(p: Protection) {
    && (p.stop.Some? && p.stop.value.trigger > 0.0 ==> RoundPrice(p.stop.value.trigger) > 0.0)
    && (p.takeProfit.Some? && p.takeProfit.value.trigger > 0.0 ==> RoundPrice(p.takeProfit.value.trigger) > 0.0)
  }

  /** One tick tightens, and reading the armed suggestion back changes nothing. */
  lemma StepTightens(active: Protection, tick: Tick)
    requires Representable(active)
    ensures Tightens(tick.position.side, NormalizeProtection(active), Next(active, tick))
    ensures NormalizeProtection(Next(active, tick)) == Next(active, tick)
    ensures Representable(Next(active, tick))
  {
    RecommendationIsSafe(tick.position, active, tick.liveTruth, tick.policy);
    var next := Next(active, tick);
    if next.stop.Some? {
      RoundToOnGrid(next.stop.value.trigger, PRICE_UNIT);
    }
    if next.takeProfit.Some? {
      RoundToOnGrid(next.takeProfit.value.trigger, PRICE_UNIT);
    }
  }

  lemma RunStarts(active: Protection, ticks: seq<Tick>)
    ensures Run(active, ticks)[0] == NormalizeProtection(active)
    ensures ticks != [] ==> Run(active, ticks)[1..] == Run(Next(active, ticks[0]), ticks[1..])
  {
  }

  /** The ratchet, over whole runs: marks, entries, policies and freshness may change freely
      from tick to tick; between any two moments the protection has only tightened. */
  lemma {:induction false} RunTightens(side: Side, active: Protection, ticks: seq<Tick>, i: nat, j: nat)
    requires Representable(active)
    requires forall k :: 0 <= k < |ticks| ==> ticks[k].position.side == side
    requires i <= j <= |ticks|
    ensures Tightens(side, Run(active, ticks)[i], Run(active, ticks)[j])
    decreases |ticks|
  {
    RunStarts(active, ticks);
    if j > 0 {
      var next := Next(active, ticks[0]);
      StepTightens(active, ticks[0]);
      RunStarts(next, ticks[1..]);
      RunTightens(side, next, ticks[1..], if i > 0 then i - 1 else 0, j - 1);
    }
  }

  ghost predicate OnSide(ticks: seq<Tick>, side: Side) {
    forall k :: 0 <= k < |ticks| ==> ticks[k].position.side == side
  }

  /** Between any two moments of any run, whatever the ticks. */
  ghost predicate EveryRunTightens(side: Side, active: Protection) {
    forall ticks: seq<Tick>, i: nat, j: nat :: OnSide(ticks, side) && i <= j <= |ticks| ==>
      Tightens(side, Run(active, ticks)[i], Run(active, ticks)[j])
  }

  /** A leg that rounds to zero is lost by a single tick without live data. */
  lemma StaleTickLosesLeg(side: Side, active: Protection)
    requires !Representable(active)
    ensures var stale := Tick(Position(side, 0.0, 0.0), false, Policy(0.0, 0.0, 0.0, 0.0));
            !Tightens(side, Run(active, [stale])[0], Run(active, [stale])[1])
  {
    var stale := Tick(Position(side, 0.0, 0.0), false, Policy(0.0, 0.0, 0.0, 0.0));
    RunStarts(active, [stale]);
    RunStarts(Next(active, stale), []);
    assert 0.0 == Multiple(0, PRICE_UNIT);
    assert [stale][1..] == [];
    assert Run(active, [stale])[1] == Run(active, [stale])[1..][0] == NormalizeProtection(Next(active, stale));
    assert Next(active, stale) == NormalizeProtection(active);
    if active.stop.Some? && active.stop.value.trigger > 0.0 {
      RoundToKeepsBound(active.stop.value.trigger, 0.0, PRICE_UNIT);
    }
    if active.takeProfit.Some? && active.takeProfit.value.trigger > 0.0 {
      RoundToKeepsBound(active.takeProfit.value.trigger, 0.0, PRICE_UNIT);
    }
  }

  /** The exact condition for the ratchet: every run tightens if and only if no trigger the
      position starts with rounds to zero. */
  lemma EveryRunTightensIff(side: Side, active: Protection)
    ensures EveryRunTightens(side, active) <==> Representable(active)
  {
    if Representable(active) {
      forall ticks: seq<Tick>, i: nat, j: nat | OnSide(ticks, side) && i <= j <= |ticks|
        ensures Tightens(side, Run(active, ticks)[i], Run(active, ticks)[j])
      {
        RunTightens(side, active, ticks, i, j);
      }
    } else {
      var stale := Tick(Position(side, 0.0, 0.0), false, Policy(0.0, 0.0, 0.0, 0.0));
      StaleTickLosesLeg(side, active);
      assert OnSide([stale], side);
    }
  }

  /** Below half a unit the ratchet does break: a short's stop of 4e-11 reads as zero, and
      the trailing stage then replaces it by a price above it. */
  lemma ShortStopAtZeroIsRaised()
    ensures var active := Protection(Some(Leg(0.00000000004, "MARK_PRICE", "MARKET")), None);
            var row := BuildStatus(Position(Short, 2.0, 1.0), active, true);
            var v := Govern(row, Policy(35.0, 90.0, 35.0, 60.0));
            v.action == TrailStop && v.suggested.stop.value.trigger > active.stop.value.trigger
  {
    var active := Protection(Some(Leg(0.00000000004, "MARK_PRICE", "MARKET")), None);
    var p := Position(Short, 2.0, 1.0);
    var row := BuildStatus(p, active, true);
    assert RoundPrice(0.00000000004) == 0.0;
    assert RoundPrice(2.0) == 2.0 && RoundPrice(1.0) == 1.0;
    assert PnlBps(p) == 5000.0;
    assert row.pnlBps == 5000.0;
    assert Above(1.0, 35.0) == 1.0035;
    assert RoundPrice(1.0035) == 1.0035;
  }

  /** A leg survives being normalised twice exactly when its trigger does not round to zero. */
  lemma LegSurvivesRereading(leg: Leg)
    requires leg.trigger > 0.0
    ensures NormalizeLeg(NormalizeLeg(Some(leg))).Some? <==> RoundPrice(leg.trigger) > 0.0
    ensures RoundPrice(leg.trigger) > 0.0 <==> leg.trigger > PRICE_UNIT / 2.0
    ensures RoundPrice(leg.trigger) > 0.0 ==> NormalizeLeg(NormalizeLeg(Some(leg))) == NormalizeLeg(Some(leg))
  {
    RoundToNearest(leg.trigger, PRICE_UNIT);
    RoundToOnGrid(RoundPrice(leg.trigger), PRICE_UNIT);
  }
}
