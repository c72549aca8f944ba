/** Running statistics: an agent's learning state, updated in place after each outcome, and the
    one-pass maximum drawdown of the performance report. */
module AgentLearning {
  import opened Grid

  datatype Outcome = Outcome(regime: string, pnl: real)

  datatype Performance = Performance(total: nat, wins: nat, losses: nat, winRate: real, avgPnl: real)

  const NEW: Performance := Performance(0, 0, 0, 50.0, 0.0)

  // ------------------------------------------------------------ definitions over the outcomes

  function InRegime(outcomes: seq<Outcome>, regime: string): seq<Outcome> {
    if outcomes == [] then []
    else
      var before, last := InRegime(outcomes[..|outcomes| - 1], regime), outcomes[|outcomes| - 1];
      if last.regime == regime then before + [last] else before
  }

  function Wins(outcomes: seq<Outcome>): nat {
    if outcomes == [] then 0
    else Wins(outcomes[..|outcomes| - 1]) + (if outcomes[|outcomes| - 1].pnl > 0.0 then 1 else 0)
  }

  function Losses(outcomes: seq<Outcome>): nat {
    if outcomes == [] then 0
    else Losses(outcomes[..|outcomes| - 1]) + (if outcomes[|outcomes| - 1].pnl < 0.0 then 1 else 0)
  }

  function TotalPnl(outcomes: seq<Outcome>): real {
    if outcomes == [] then 0.0 else TotalPnl(outcomes[..|outcomes| - 1]) + outcomes[|outcomes| - 1].pnl
  }

  function Percent(part: nat, whole: nat): real {
    part as real / (if whole >= 1 then whole else 1) as real * 100.0
  }

  function Mean(outcomes: seq<Outcome>): real
    requires outcomes != []
  {
    TotalPnl(outcomes) / |outcomes| as real
  }

  /** The adaptive adjustment: nudged by a tenth after every outcome that leaves the win rate
      above 60 or below 45, and held in [-1, 1]. */
  function Adjustment(outcomes: seq<Outcome>): (a: real)
    ensures -1.0 <= a <= 1.0
  {
    if outcomes == [] then 0.0
    else Nudged(Adjustment(outcomes[..|outcomes| - 1]), Percent(Wins(outcomes), |outcomes|))
  }

  function Nudged(adjustment: real, winRate: real): real {
    if winRate > 60.0 then (if adjustment + 0.1 <= 1.0 then adjustment + 0.1 else 1.0)
    else if winRate < 45.0 then (if adjustment - 0.1 >= -1.0 then adjustment - 0.1 else -1.0)
    else adjustment
  }

  predicate Summarises(p: Performance, outcomes: seq<Outcome>) {
    && outcomes != []
    && p.total == |outcomes| && p.wins == Wins(outcomes) && p.losses == Losses(outcomes)
    && p.winRate == Percent(Wins(outcomes), |outcomes|)
    && p.avgPnl == Mean(outcomes)
  }

  /** A percentage is of the whole, and of one where there is none. */
  lemma PercentIs(part: nat, whole: nat)
    ensures whole >= 1 ==> Percent(part, whole) * whole as real == part as real * 100.0
    ensures whole == 0 ==> Percent(part, whole) == part as real * 100.0
  {
    if whole >= 1 {
      var share := part as real / whole as real;
      assert share * whole as real == part as real;
      assert share * 100.0 * whole as real == share * whole as real * 100.0;
    }
  }

  /** An outcome moves the adjustment a tenth up after a win rate above 60, a tenth down after one
      below 45, as far as the ends allow, and otherwise not at all. */
  lemma AdjustmentStep(outcomes: seq<Outcome>, o: Outcome)
    ensures Adjustment([]) == 0.0
    ensures var before, after := Adjustment(outcomes), Adjustment(outcomes + [o]);
            var rate := Percent(Wins(outcomes + [o]), |outcomes| + 1);
            && (rate > 60.0 && before <= 0.9 ==> after == before + 0.1)
            && (rate > 60.0 && before > 0.9 ==> after == 1.0)
            && (rate < 45.0 && before >= -0.9 ==> after == before - 0.1)
            && (rate < 45.0 && before < -0.9 ==> after == -1.0)
            && (45.0 <= rate <= 60.0 ==> after == before)
  {
    assert (outcomes + [o])[..|outcomes|] == outcomes;
  }

  // ------------------------------------------------------------ steps

  lemma AppendStep(outcomes: seq<Outcome>, o: Outcome)
    ensures Wins(outcomes + [o]) == Wins(outcomes) + (if o.pnl > 0.0 then 1 else 0)
    ensures Losses(outcomes + [o]) == Losses(outcomes) + (if o.pnl < 0.0 then 1 else 0)
    ensures TotalPnl(outcomes + [o]) == TotalPnl(outcomes) + o.pnl
    ensures Adjustment(outcomes + [o]) == Nudged(Adjustment(outcomes), Percent(Wins(outcomes + [o]), |outcomes| + 1))
  {
    assert (outcomes + [o])[..|outcomes|] == outcomes;
  }

  lemma RegimeStep(outcomes: seq<Outcome>, o: Outcome, r: string)
    ensures InRegime(outcomes + [o], r) == if o.regime == r then InRegime(outcomes, r) + [o] else InRegime(outcomes, r)
  {
    assert (outcomes + [o])[..|outcomes|] == outcomes;
  }

  function UpdatedMean(avg: real, count: nat, x: real): real {
    (avg * count as real + x) / (count + 1) as real
  }

  lemma MeanStep(sum: real, avg: real, count: nat, x: real)
    requires if count == 0 then sum == 0.0 else avg == sum / count as real
    ensures UpdatedMean(avg, count, x) == (sum + x) / (count + 1) as real
  {
    if count == 0 {
      assert avg * 0.0 == 0.0;
    } else {
      assert avg * count as real == sum;
    }
  }

  /** The running update of a summary gives the summary of the longer list. */
  lemma SummaryStep(p: Performance, outcomes: seq<Outcome>, o: Outcome)
    requires if outcomes == [] then p == NEW else Summarises(p, outcomes)
    ensures var wins := p.wins + (if o.pnl > 0.0 then 1 else 0);
            var losses := p.losses + (if o.pnl < 0.0 then 1 else 0);
            Summarises(Performance(p.total + 1, wins, losses, Percent(wins, p.total + 1),
                                   UpdatedMean(p.avgPnl, p.total, o.pnl)), outcomes + [o])
  {
    AppendStep(outcomes, o);
    MeanStep(TotalPnl(outcomes), p.avgPnl, |outcomes|, o.pnl);
  }

  method UpdatedPerformance(previous: Performance, o: Outcome, ghost before: seq<Outcome>) returns (p: Performance)
    requires if before == [] then previous == NEW else Summarises(previous, before)
    ensures Summarises(p, before + [o])
  {
    SummaryStep(previous, before, o);
    p := previous.(total := previous.total + 1);
    if o.pnl > 0.0 {
      p := p.(wins := p.wins + 1);
    } else if o.pnl < 0.0 {
      p := p.(losses := p.losses + 1);
    }
    p := p.(winRate := Percent(p.wins, p.total));
    p := p.(avgPnl := UpdatedMean(p.avgPnl, p.total - 1, o.pnl));
  }

  /** The table by regime: an entry for every regime that occurs, summarising its outcomes. */
  ghost predicate Tracks(table: map<string, Performance>, outcomes: seq<Outcome>) {
    && (forall r :: r in table <==> InRegime(outcomes, r) != [])
    && (forall r :: r in table ==> Summarises(table[r], InRegime(outcomes, r)))
  }

  lemma TracksStep(table: map<string, Performance>, outcomes: seq<Outcome>, o: Outcome, p: Performance)
    requires Tracks(table, outcomes) && Summarises(p, InRegime(outcomes, o.regime) + [o])
    ensures Tracks(table[o.regime := p], outcomes + [o])
  {
    var after := table[o.regime := p];
    forall r ensures r in after <==> InRegime(outcomes + [o], r) != []
             ensures r in after ==> Summarises(after[r], InRegime(outcomes + [o], r))
    {
      RegimeStep(outcomes, o, r);
    }
  }

  /** Regimes that occur, or more, each named once. */
  ghost predicate Covers(regimes: seq<string>, outcomes: seq<Outcome>) {
    && (forall i, j :: 0 <= i < j < |regimes| ==> regimes[i] != regimes[j])
    && forall k :: 0 <= k < |outcomes| ==> outcomes[k].regime in regimes
  }

  function RegimeSum(regimes: seq<string>, outcomes: seq<Outcome>, measure: seq<Outcome> -> nat): nat {
    if regimes == [] then 0
    else RegimeSum(regimes[..|regimes| - 1], outcomes, measure) + measure(InRegime(outcomes, regimes[|regimes| - 1]))
  }

  lemma {:induction false} SumIgnores(regimes: seq<string>, outcomes: seq<Outcome>, o: Outcome, measure: seq<Outcome> -> nat)
    requires o.regime !in regimes
    ensures RegimeSum(regimes, outcomes + [o], measure) == RegimeSum(regimes, outcomes, measure)
  {
    if regimes != [] {
      RegimeStep(outcomes, o, regimes[|regimes| - 1]);
      SumIgnores(regimes[..|regimes| - 1], outcomes, o, measure);
      assert regimes[|regimes| - 1] in regimes;
    }
  }

  lemma {:induction false} SumMoves(regimes: seq<string>, outcomes: seq<Outcome>, o: Outcome, measure: seq<Outcome> -> nat)
    requires o.regime in regimes && forall i, j :: 0 <= i < j < |regimes| ==> regimes[i] != regimes[j]
    ensures RegimeSum(regimes, outcomes + [o], measure) + measure(InRegime(outcomes, o.regime))
            == RegimeSum(regimes, outcomes, measure) + measure(InRegime(outcomes, o.regime) + [o])
  {
    var init, last := regimes[..|regimes| - 1], regimes[|regimes| - 1];
    assert regimes == init + [last];
    RegimeStep(outcomes, o, last);
    if last == o.regime {
      assert last !in init;
      SumIgnores(init, outcomes, o, measure);
    } else {
      SumMoves(init, outcomes, o, measure);
    }
  }

  lemma {:induction false} NothingToSum(regimes: seq<string>, measure: seq<Outcome> -> nat)
    requires measure([]) == 0
    ensures RegimeSum(regimes, [], measure) == 0
  {
    if regimes != [] {
      NothingToSum(regimes[..|regimes| - 1], measure);
    }
  }

  /** The regimes share out the outcomes: their totals and their wins add up to the agent's. */
  lemma {:induction false} RegimesAddUp(regimes: seq<string>, outcomes: seq<Outcome>)
    requires Covers(regimes, outcomes)
    ensures RegimeSum(regimes, outcomes, (s: seq<Outcome>) => |s|) == |outcomes|
    ensures RegimeSum(regimes, outcomes, Wins) == Wins(outcomes)
  {
    if outcomes == [] {
      NothingToSum(regimes, (s: seq<Outcome>) => |s|);
      NothingToSum(regimes, Wins);
    } else {
      var init, o := outcomes[..|outcomes| - 1], outcomes[|outcomes| - 1];
      assert outcomes == init + [o];
      assert forall k :: 0 <= k < |init| ==> init[k] == outcomes[k];
      RegimesAddUp(regimes, init);
      SumMoves(regimes, init, o, (s: seq<Outcome>) => |s|);
      SumMoves(regimes, init, o, Wins);
      AppendStep(init, o);
      AppendStep(InRegime(init, o.regime), o);
    }
  }

  // ------------------------------------------------------------ the state

  class LearningState {
    var totalSignals: nat
    var winningSignals: nat
    var losingSignals: nat
    var winRatePct: real
    var adaptiveAdjustment: real
    var performanceByRegime: map<string, Performance>
    ghost var outcomes: seq<Outcome>

    constructor ()
      ensures Valid() && outcomes == []
    {
      totalSignals, winningSignals, losingSignals, winRatePct := 0, 0, 0, INITIAL_RATE;
      adaptiveAdjustment, performanceByRegime, outcomes := 0.0, map[], [];
    }

    /** Every field is what its definition says over all outcomes so far. */
    ghost predicate Valid()
      reads this
    {
      && totalSignals == |outcomes| && winningSignals == Wins(outcomes) && losingSignals == Losses(outcomes)
      && (outcomes != [] ==> winRatePct == Percent(Wins(outcomes), |outcomes|))
      && adaptiveAdjustment == Adjustment(outcomes)
      && Tracks(performanceByRegime, outcomes)
    }

    method UpdateLearning(o: Outcome)
      requires Valid()
      modifies this
      ensures Valid() && outcomes == old(outcomes) + [o]
    {
      AppendStep(outcomes, o);
      if o.pnl > 0.0 {
        winningSignals := winningSignals + 1;
      } else if o.pnl < 0.0 {
        losingSignals := losingSignals + 1;
      }
      totalSignals := totalSignals + 1;
      winRatePct := Percent(winningSignals, totalSignals);
      UpdateRegime(o);
      UpdateAdjustment();
      outcomes := outcomes + [o];
    }

    method UpdateAdjustment()
      modifies this`adaptiveAdjustment
      ensures adaptiveAdjustment == Nudged(old(adaptiveAdjustment), winRatePct)
    {
      if winRatePct > 60.0 {
        adaptiveAdjustment := if adaptiveAdjustment + 0.1 <= 1.0 then adaptiveAdjustment + 0.1 else 1.0;
      } else if winRatePct < 45.0 {
        adaptiveAdjustment := if adaptiveAdjustment - 0.1 >= -1.0 then adaptiveAdjustment - 0.1 else -1.0;
      }
    }

    method UpdateRegime(o: Outcome)
      requires Tracks(performanceByRegime, outcomes)
      modifies this`performanceByRegime
      ensures Tracks(performanceByRegime, outcomes + [o])
    {
      var p := if o.regime in performanceByRegime then performanceByRegime[o.regime] else NEW;
      p := UpdatedPerformance(p, o, InRegime(outcomes, o.regime));
      TracksStep(performanceByRegime, outcomes, o, p);
      performanceByRegime := performanceByRegime[o.regime := p];
    }
  }

  const INITIAL_RATE: real := 50.0

  // ------------------------------------------------------------ maximum drawdown

  /** Equity after the first `i` values. */
  function Equity(values: seq<real>, i: nat): real
    requires i <= |values|
  {
    if i == 0 then 0.0 else Equity(values, i - 1) + values[i - 1]
  }

  function Drop(values: seq<real>, i: nat, j: nat): real
    requires i <= |values| && j <= |values|
  {
    Equity(values, i) - Equity(values, j)
  }

  ghost predicate IsPeak(values: seq<real>, n: nat, peak: real)
    requires n <= |values|
  {
    && (exists i: nat :: i <= n && Equity(values, i) == peak)
    && forall i: nat :: i <= n ==> Equity(values, i) <= peak
  }

  /** The deepest fall from any point to any later one among the first `n`. */
  ghost predicate IsDeepest(values: seq<real>, n: nat, fall: real)
    requires n <= |values|
  {
    && (exists i: nat, j: nat :: i <= j <= n && Drop(values, i, j) == fall)
    && forall i: nat, j: nat :: i <= j <= n ==> Drop(values, i, j) <= fall
  }

  /** Between two points the equity changes by what came in between: bounds on that bound it. */
  lemma {:induction false} DropIsBounded(values: seq<real>, i: nat, j: nat, most: real)
    requires i <= j <= |values| && forall k :: i <= k < j ==> -values[k] <= most
    ensures Drop(values, i, j) <= most * (j - i) as real
    decreases j
  {
    if i == j {
      assert most * 0.0 == 0.0;
    } else {
      DropIsBounded(values, i, j - 1, most);
      assert Drop(values, i, j) == Drop(values, i, j - 1) - values[j - 1];
      OneMoreTimes(most, (j - 1 - i) as real, (j - i) as real);
    }
  }

  /** Without a loss there is no drawdown. */
  lemma GainsNeverFall(values: seq<real>, fall: real)
    requires IsDeepest(values, |values|, fall) && forall k :: 0 <= k < |values| ==> values[k] >= 0.0
    ensures fall == 0.0
  {
    var i: nat, j: nat :| i <= j <= |values| && Drop(values, i, j) == fall;
    DropIsBounded(values, i, j, 0.0);
    assert Drop(values, 0, 0) == 0.0;
  }

  lemma DeepestStep(values: seq<real>, n: nat, peak: real, fall: real)
    requires n < |values| && IsPeak(values, n + 1, peak) && IsDeepest(values, n, fall)
    ensures var last := peak - Equity(values, n + 1);
            IsDeepest(values, n + 1, if fall >= last then fall else last)
  {
    var last := peak - Equity(values, n + 1);
    var i: nat :| i <= n + 1 && Equity(values, i) == peak;
    assert Drop(values, i, n + 1) == last;
  }

  method MaxDrawdown(values: seq<real>) returns (maxDrawdown: real)
    ensures IsDeepest(values, |values|, maxDrawdown)
  {
    var equity, peak := 0.0, 0.0;
    maxDrawdown := 0.0;
    assert Equity(values, 0) == 0.0 && Drop(values, 0, 0) == 0.0;
    for n := 0 to |values|
      invariant equity == Equity(values, n)
      invariant IsPeak(values, n, peak)
      invariant IsDeepest(values, n, maxDrawdown)
    {
      equity := equity + values[n];
      peak := if peak >= equity then peak else equity;
      assert Equity(values, n + 1) == equity;
      DeepestStep(values, n, peak, maxDrawdown);
      maxDrawdown := if maxDrawdown >= peak - equity then maxDrawdown else peak - equity;
    }
  }
}
