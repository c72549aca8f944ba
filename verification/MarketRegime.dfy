/** Regime labels of the regime engine: direction ratio, gap ratio, classification and the
    confidence reported with it. */
module MarketRegime {
  import opened Basics
  import opened Correlation
  import opened Grid

  const TREND_AUTOCORR_MIN: real := 0.10
  const RANGE_AUTOCORR_MAX: real := 0.05
  const HIGH_VOL_BPS: real := 25.0
  const CHAOTIC_DIRECT_RATIO_MAX: real := 0.55
  const LOW_LIQ_GAP_RATIO_MIN: real := 0.70
  const UNIT: real := 0.0001

  datatype Regime = LowLiquidity | Chaotic | HighVol | Trend | Range

  // ------------------------------------------------------------ direction ratio

  function SumAbs(r: seq<real>, n: nat): real
    requires n <= |r|
  {
    if n == 0 then 0.0 else SumAbs(r, n - 1) + AbsReal(r[n - 1])
  }

  function DirectionRatio(r: seq<real>): real {
    var total := SumAbs(r, |r|);
    if total > 0.0 then AbsReal(Sum(r, |r|)) / total else 0.0
  }

  predicate NoneBelow(r: seq<real>, n: nat)
    requires n <= |r|
  {
    forall i :: 0 <= i < n ==> r[i] >= 0.0
  }

  predicate NoneAbove(r: seq<real>, n: nat)
    requires n <= |r|
  {
    forall i :: 0 <= i < n ==> r[i] <= 0.0
  }

  lemma {:induction false} Triangle(r: seq<real>, n: nat)
    requires n <= |r|
    ensures -SumAbs(r, n) <= Sum(r, n) <= SumAbs(r, n)
    ensures Sum(r, n) == SumAbs(r, n) <==> NoneBelow(r, n)
    ensures Sum(r, n) == -SumAbs(r, n) <==> NoneAbove(r, n)
  {
    if n > 0 {
      Triangle(r, n - 1);
    }
  }

  lemma {:induction false} SumAbsIsZeroIff(r: seq<real>, n: nat)
    requires n <= |r|
    ensures SumAbs(r, n) >= 0.0
    ensures SumAbs(r, n) == 0.0 <==> NoneBelow(r, n) && NoneAbove(r, n)
  {
    if n > 0 {
      SumAbsIsZeroIff(r, n - 1);
    }
  }

  /** The ratio lies in [0, 1]; it is 1 exactly when some return is not zero and no two returns
      have opposite signs. */
  lemma DirectionRatioIsBounded(r: seq<real>)
    ensures 0.0 <= DirectionRatio(r) <= 1.0
    ensures DirectionRatio(r) == 1.0 <==>
              (exists i :: 0 <= i < |r| && r[i] != 0.0) && (NoneBelow(r, |r|) || NoneAbove(r, |r|))
  {
    Triangle(r, |r|);
    SumAbsIsZeroIff(r, |r|);
    var total, net := SumAbs(r, |r|), AbsReal(Sum(r, |r|));
    if total > 0.0 {
      FactorSign(net, total, net / total);
      RatioBounds(net, total);
      if net == total {
        FactorSign(net, total, 1.0);
      }
    }
  }

  // ------------------------------------------------------------ gap ratio

  /** Truncation towards zero, as `int()` does. */
  function Truncate(x: real): int {
    if x >= 0.0 then x.Floor else -((-x).Floor)
  }

  /** `actual` bars against those a gapless window of `span` seconds would hold. */
  function GapRatio(span: real, timeframe: real, actual: nat): real
    requires timeframe > 0.0
  {
    var slots := Truncate(span / timeframe) + 1;
    var expected := if slots >= 1 then slots else 1;
    if actual as real / expected as real <= 1.0 then 1.0 - actual as real / expected as real else 0.0
  }

  lemma GapRatioIsBounded(span: real, timeframe: real, actual: nat)
    requires timeframe > 0.0 && actual > 0
    ensures 0.0 <= GapRatio(span, timeframe, actual) < 1.0
  {
    var slots := Truncate(span / timeframe) + 1;
    var expected := (if slots >= 1 then slots else 1) as real;
    FactorSign(actual as real, expected, actual as real / expected);
  }

  /** For a window that runs forward: one slot per whole timeframe, and one more; the ratio is the
      part of the slots without a bar. */
  lemma GapRatioIs(span: real, timeframe: real, actual: nat, slots: nat)
    requires timeframe > 0.0 && span >= 0.0 && slots >= 1
    requires (slots - 1) as real * timeframe <= span < slots as real * timeframe
    ensures actual <= slots ==> GapRatio(span, timeframe, actual) * slots as real == (slots - actual) as real
    ensures actual > slots ==> GapRatio(span, timeframe, actual) == 0.0
  {
    var q := span / timeframe;
    DivThenTimes(span, timeframe);
    ScaledOrder((slots - 1) as real, q, 0.0, timeframe, (slots - 1) as real * timeframe, span, 0.0);
    ScaledOrder(q, slots as real, 0.0, timeframe, span, slots as real * timeframe, 0.0);
    assert Truncate(q) == slots - 1;
    var n, share := slots as real, actual as real / slots as real;
    DivThenTimes(actual as real, n);
    ScaledOrder(share, 1.0, 0.0, n, actual as real, n, 0.0);
    assert (1.0 - share) * n == n - share * n;
  }

  // ------------------------------------------------------------ classification

  function Confidence(x: real): real {
    RoundTo(MinReal(1.0, x), UNIT)
  }

  /** The part of a reading that has no direction. */
  function Undirected(reading: real, direction: real): real {
    reading * (1.0 - direction)
  }

  function Classify(vol: real, autocorr: real, direction: real, gap: real): (Regime, real) {
    if gap >= LOW_LIQ_GAP_RATIO_MIN then (LowLiquidity, Confidence(gap))
    else if vol >= HIGH_VOL_BPS && direction < CHAOTIC_DIRECT_RATIO_MAX then
      (Chaotic, Confidence(Undirected(vol / (HIGH_VOL_BPS * 2.0), direction)))
    else if vol >= HIGH_VOL_BPS then (HighVol, Confidence(vol / (HIGH_VOL_BPS * 2.0)))
    else if autocorr >= TREND_AUTOCORR_MIN then (Trend, Confidence(AbsReal(autocorr) / 0.3))
    else if autocorr <= RANGE_AUTOCORR_MAX then (Range, Confidence((RANGE_AUTOCORR_MAX - autocorr + 0.1) / 0.3))
    else (Range, 0.5)
  }

  /** Which label is given: thin data first, then volatility, with or without a direction, then the
      autocorrelation. */
  lemma LabelsExactly(vol: real, autocorr: real, direction: real, gap: real)
    ensures var regime := Classify(vol, autocorr, direction, gap).0;
            && (regime == LowLiquidity <==> gap >= 0.7)
            && (regime == Chaotic <==> gap < 0.7 && vol >= 25.0 && direction < 0.55)
            && (regime == HighVol <==> gap < 0.7 && vol >= 25.0 && direction >= 0.55)
            && (regime == Trend <==> gap < 0.7 && vol < 25.0 && autocorr >= 0.1)
            && (regime == Range <==> gap < 0.7 && vol < 25.0 && autocorr < 0.1)
  {
  }

  /** A confidence is a reading held to 1 and rounded to four decimals. */
  ghost predicate Reports(confidence: real, reading: real) {
    confidence == RoundTo(if reading < 1.0 then reading else 1.0, 0.0001)
  }

  lemma DirectedPart(half: real, vol: real, direction: real)
    requires half * 50.0 == vol
    ensures Undirected(half, direction) * 50.0 == vol - vol * direction
  {
    var part := half * direction;
    assert half * (1.0 - direction) == half - part;
    assert half * 50.0 * direction == part * 50.0;
  }

  /** What is reported with each label: the gap ratio; half the volatility in units of its cut, less
      the directed part where there is little of it; or the autocorrelation in units of 0.3, for a
      range counted down from 0.15; and one half in between. */
  lemma ConfidencesExactly(vol: real, autocorr: real, direction: real, gap: real)
    ensures var (regime, confidence) := Classify(vol, autocorr, direction, gap);
            && (regime == LowLiquidity ==> Reports(confidence, gap))
            && (regime == Chaotic ==>
                  exists x: real :: Reports(confidence, x) && x * 50.0 == vol - vol * direction)
            && (regime == HighVol ==> exists x: real :: Reports(confidence, x) && x * 50.0 == vol)
            && (regime == Trend ==> exists x: real :: Reports(confidence, x) && x * 0.3 == autocorr)
            && (regime == Range && autocorr <= 0.05 ==>
                  exists x: real :: Reports(confidence, x) && x * 0.3 == 0.15 - autocorr)
            && (regime == Range && autocorr > 0.05 ==> confidence == 0.5)
  {
    var (regime, confidence) := Classify(vol, autocorr, direction, gap);
    hide RoundTo, Undirected;
    var half := vol / (HIGH_VOL_BPS * 2.0);
    assert half * 50.0 == vol;
    DirectedPart(half, vol, direction);
    if regime == Chaotic {
      var reading := Undirected(half, direction);
      assert confidence == Confidence(reading);
      assert Reports(confidence, reading);
    } else if regime == HighVol {
      assert Reports(confidence, half);
    } else if regime == Trend {
      assert Reports(confidence, AbsReal(autocorr) / 0.3);
    } else if regime == Range && autocorr <= 0.05 {
      RangeReading(autocorr);
      assert Reports(confidence, (0.05 - autocorr + 0.1) / 0.3);
    }
  }

  lemma RangeReading(autocorr: real)
    ensures (0.05 - autocorr + 0.1) / 0.3 * 0.3 == 0.15 - autocorr
  {
  }

  lemma ConfidenceIsBounded(x: real, floor: real)
    requires floor <= x && floor <= 1.0 && OnGrid(floor, UNIT)
    ensures floor <= Confidence(x) <= 1.0
  {
    assert 1.0 == Multiple(10000, UNIT);
    RoundToKeepsBound(MinReal(1.0, x), 1.0, UNIT);
    RoundToKeepsBound(MinReal(1.0, x), floor, UNIT);
  }

  lemma ChaoticFloor(vol: real, direction: real)
    requires vol >= HIGH_VOL_BPS && direction < CHAOTIC_DIRECT_RATIO_MAX
    ensures Undirected(vol / (HIGH_VOL_BPS * 2.0), direction) >= 0.225
  {
    var half := vol / 50.0;
    assert half >= 0.5;
    assert (half - 0.5) * (1.0 - direction) >= 0.0;
    assert (half - 0.5) * (1.0 - direction) == half * (1.0 - direction) - 0.5 * (1.0 - direction);
  }

  /** How sure each label has to be before it is given at all. */
  function Floor(regime: Regime): real {
    match regime
    case LowLiquidity => 0.7
    case Chaotic => 0.225
    case HighVol => 0.5
    case Trend => 0.3333
    case Range => 0.3333
  }

  /** Every confidence lies between its label's floor and 1, after rounding. */
  lemma ConfidenceByRegime(vol: real, autocorr: real, direction: real, gap: real)
    ensures var (regime, confidence) := Classify(vol, autocorr, direction, gap);
            Floor(regime) <= confidence <= 1.0
  {
    assert Multiple(7000, UNIT) == 0.7 && Multiple(2250, UNIT) == 0.225 && Multiple(5000, UNIT) == 0.5;
    assert Multiple(3333, UNIT) == 0.3333;
    if gap >= LOW_LIQ_GAP_RATIO_MIN {
      ConfidenceIsBounded(gap, 0.7);
    } else if vol >= HIGH_VOL_BPS && direction < CHAOTIC_DIRECT_RATIO_MAX {
      ChaoticFloor(vol, direction);
      ConfidenceIsBounded(Undirected(vol / (HIGH_VOL_BPS * 2.0), direction), 0.225);
    } else if vol >= HIGH_VOL_BPS {
      ConfidenceIsBounded(vol / (HIGH_VOL_BPS * 2.0), 0.5);
    } else if autocorr >= TREND_AUTOCORR_MIN {
      ConfidenceIsBounded(AbsReal(autocorr) / 0.3, 0.3333);
    } else if autocorr <= RANGE_AUTOCORR_MAX {
      ConfidenceIsBounded((RANGE_AUTOCORR_MAX - autocorr + 0.1) / 0.3, 0.3333);
    }
  }
}
