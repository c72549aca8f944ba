/** Order quantities at the venues: the BingX and Bybit lot normalisers, and the loop that
    resubmits a BingX order one lot smaller while the venue reports insufficient margin. */
module LotSizing {
  import opened Basics
  import opened Grid

  const TOLERANCE: real := 0.000000000001
  const FORMAT_UNIT: real := 0.00000001
  const MIN_REFERENCE: real := 0.000000001

  datatype ContractSpec = ContractSpec(
    sizeStep: real,
    quantityPrecision: int,
    tradeMinQuantity: real,
    tradeMinUsdt: real)

  function Ceil(x: real): int {
    -((-x).Floor)
  }

  /** 10 to the power -digits; a precision of zero or less rounds to whole units. */
  function PrecisionUnit(digits: int): (unit: real)
    ensures 0.0 < unit <= 1.0
    decreases digits
  {
    if digits <= 0 then 1.0 else PrecisionUnit(digits - 1) / 10.0
  }

  function RoundToPrecision(value: real, digits: int): real {
    RoundTo(value, PrecisionUnit(digits))
  }

  /** A quantity travels to the venue as text with eight decimals. */
  function FormatDecimal(value: real): real {
    RoundTo(value, FORMAT_UNIT)
  }

  function StepFloor(value: real, step: real): real {
    if step <= 0.0 then value else Multiple((value / step + TOLERANCE).Floor, step)
  }

  function StepCeil(value: real, step: real): real {
    if step <= 0.0 then value else Multiple(Ceil(value / step - TOLERANCE), step)
  }

  // ---------------------------------------------------------------- BingX

  /** The venue minimum before it is lifted to the step lattice. */
  function RawMinimum(spec: ContractSpec, referencePrice: real): real {
    var byNotional := if referencePrice > 0.0 && spec.tradeMinUsdt > 0.0
                      then spec.tradeMinUsdt / MaxReal(referencePrice, MIN_REFERENCE) else 0.0;
    MaxReal(MaxReal(spec.tradeMinQuantity, spec.sizeStep), byNotional)
  }

  lemma QuotientBound(x: real, amount: real, price: real)
    requires price > 0.0
    ensures x >= amount / price <==> x * price >= amount
  {
    DivThenTimes(amount, price);
    ScaledOrder(x, amount / price, 0.0, price, x * price, amount, 0.0);
  }

  /** The price a notional is measured at: the reference, but no less than 1e-9. */
  function At(referencePrice: real): real {
    if referencePrice > 0.000000001 then referencePrice else 0.000000001
  }

  /** What reaches the minimum: at least the contract's least quantity and one step, and worth at
      least the contract's notional where there is a price to measure it at. */
  lemma BingxMinimumIs(x: real, spec: ContractSpec, referencePrice: real)
    ensures x >= RawMinimum(spec, referencePrice)
            <==> && x >= spec.tradeMinQuantity && x >= spec.sizeStep && x >= 0.0
                 && (referencePrice > 0.0 && spec.tradeMinUsdt > 0.0 ==>
                       x * At(referencePrice) >= spec.tradeMinUsdt)
  {
    QuotientBound(x, spec.tradeMinUsdt, At(referencePrice));
    QuotientBound(0.0, spec.tradeMinUsdt, At(referencePrice));
  }

  function LatticeMinimum(spec: ContractSpec, referencePrice: real): real {
    StepCeil(RawMinimum(spec, referencePrice), spec.sizeStep)
  }

  function BingxMinimumQuantity(spec: ContractSpec, referencePrice: real): real {
    RoundToPrecision(LatticeMinimum(spec, referencePrice), spec.quantityPrecision)
  }

  /** The candidate with the smaller (distance, size) key. */
  function Closer(a: real, b: real, target: real): real {
    if AbsReal(a - target) < AbsReal(b - target) then a
    else if AbsReal(b - target) < AbsReal(a - target) then b
    else if a <= b then a else b
  }

  /** The admissible candidate nearest the request, or the minimum when neither qualifies. */
  function ChooseLot(quantity: real, below: real, above: real, minimum: real, step: real): real {
    if below >= minimum > 0.0 && above >= minimum then Closer(below, above, quantity)
    else if below >= minimum > 0.0 then below
    else if above >= minimum > 0.0 then above
    else MaxReal(minimum, step)
  }

  function BingxResolve(quantity: real, step: real, rawMinimum: real): real {
    ChooseLot(quantity, StepFloor(quantity, step), StepCeil(quantity, step), StepCeil(rawMinimum, step), step)
  }

  function BingxNormalizeQuantity(quantity: real, spec: ContractSpec, referencePrice: real): real {
    if quantity <= 0.0 then 0.0
    else if spec.sizeStep > 0.0 then
      RoundToPrecision(BingxResolve(quantity, spec.sizeStep, RawMinimum(spec, referencePrice)), spec.quantityPrecision)
    else
      RoundToPrecision(MaxReal(quantity, LatticeMinimum(spec, referencePrice)), spec.quantityPrecision)
  }

  /** The step is a multiple of the quantity precision, and that precision survives the
      eight-decimal text. This is the grid every listed contract is expected to honour. */
  ghost predicate Aligned(spec: ContractSpec) {
    && spec.sizeStep > 0.0
    && spec.quantityPrecision <= 8
    && OnGrid(spec.sizeStep, PrecisionUnit(spec.quantityPrecision))
  }

  /** `r` is the lexicographically least (distance to target, value) among the multiples of
      `step` that are at least `minimum`, and no other multiple ties with it. */
  ghost predicate IsNearestLot(r: real, target: real, step: real, minimum: real) {
    && OnGrid(r, step)
    && r >= minimum
    && forall k: int {:trigger Multiple(k, step)} ::
         Multiple(k, step) >= minimum && Multiple(k, step) != r ==>
           || AbsReal(r - target) < AbsReal(Multiple(k, step) - target)
           || (AbsReal(r - target) == AbsReal(Multiple(k, step) - target) && r < Multiple(k, step))
  }

  /** The number of steps the resolver picks, counted in steps. */
  function NearestSteps(x: real, least: int): int {
    var below := (x + TOLERANCE).Floor;
    var above := Ceil(x - TOLERANCE);
    if below >= least && above >= least then
      (if AbsReal(below as real - x) <= AbsReal(above as real - x) then below else above)
    else if below >= least then below
    else if above >= least then above
    else least
  }

  lemma NearestStepsOptimal(x: real, least: int, k: int)
    requires least <= k && k != NearestSteps(x, least)
    ensures least <= NearestSteps(x, least)
    ensures var n := NearestSteps(x, least);
            || AbsReal(n as real - x) < AbsReal(k as real - x)
            || (AbsReal(n as real - x) == AbsReal(k as real - x) && n < k)
  {
    var below := (x + TOLERANCE).Floor;
    var above := Ceil(x - TOLERANCE);
    assert below <= above + 1 && above <= below + 1;
  }

  /** Distances and sizes scale with the step. */
  lemma ScaleDistance(n: int, x: real, target: real, step: real) returns (inSteps: real, distance: real)
    requires step > 0.0 && target == x * step
    ensures inSteps == AbsReal(n as real - x)
    ensures distance == AbsReal(Multiple(n, step) - target) == inSteps * step
  {
    ScaledOrder(n as real, x, 0.0, step, Multiple(n, step), target, 0.0);
    inSteps, distance := AbsReal(n as real - x), AbsReal(Multiple(n, step) - target);
    if n as real >= x {
      ScaledGap(x, n as real, 0.0, step, target, Multiple(n, step), 0.0, inSteps);
    } else {
      ScaledGap(n as real, x, 0.0, step, Multiple(n, step), target, 0.0, inSteps);
    }
  }

  lemma StepsAreMultiples(value: real, step: real, x: real)
    requires step > 0.0 && x == value / step
    ensures StepFloor(value, step) == Multiple((x + TOLERANCE).Floor, step)
    ensures StepCeil(value, step) == Multiple(Ceil(x - TOLERANCE), step)
  {
  }

  lemma StepsOf(value: real, step: real) returns (x: real)
    requires step > 0.0
    ensures value == x * step
    ensures StepFloor(value, step) == Multiple((x + TOLERANCE).Floor, step)
    ensures StepCeil(value, step) == Multiple(Ceil(x - TOLERANCE), step)
    ensures value >= step ==> x >= 1.0
  {
    x := value / step;
    StepsAreMultiples(value, step, x);
    hide StepFloor, StepCeil, Multiple;
    DivThenTimes(value, step);
    ScaledOrder(x, 1.0, 0.0, step, value, step, 0.0);
  }

  /** The resolver's choice, counted in steps: `x` is the request and `least` the minimum. */
  lemma BingxResolveSteps(quantity: real, step: real, rawMinimum: real) returns (least: int, x: real)
    requires 0.0 < step <= rawMinimum
    ensures least >= 1 && quantity == x * step
    ensures StepCeil(rawMinimum, step) == Multiple(least, step)
    ensures BingxResolve(quantity, step, rawMinimum) == Multiple(NearestSteps(x, least), step)
  {
    var y := StepsOf(rawMinimum, step);
    least := Ceil(y - TOLERANCE);
    x := StepsOf(quantity, step);
    ChooseInSteps(quantity, x, step, least, StepFloor(quantity, step), StepCeil(quantity, step));
  }

  lemma ChooseInSteps(quantity: real, x: real, step: real, least: int, below: real, above: real)
    requires step > 0.0 && least >= 1 && quantity == x * step
    requires below == Multiple((x + TOLERANCE).Floor, step)
    requires above == Multiple(Ceil(x - TOLERANCE), step)
    ensures ChooseLot(quantity, below, above, Multiple(least, step), step) == Multiple(NearestSteps(x, least), step)
  {
    CompareResolution(quantity, x, step, (x + TOLERANCE).Floor, Ceil(x - TOLERANCE), least);
  }

  /** Every comparison the resolver makes between products agrees with the one between counts. */
  lemma CompareResolution(quantity: real, x: real, step: real, below: int, above: int, least: int)
    requires step > 0.0 && least >= 1 && quantity == x * step
    ensures Multiple(least, step) <= Multiple(below, step) <==> least <= below
    ensures Multiple(least, step) <= Multiple(above, step) <==> least <= above
    ensures 0.0 < step <= Multiple(least, step)
    ensures Multiple(below, step) <= Multiple(above, step) <==> below <= above
    ensures AbsReal(Multiple(below, step) - quantity) <= AbsReal(Multiple(above, step) - quantity)
            <==> AbsReal(below as real - x) <= AbsReal(above as real - x)
    ensures AbsReal(Multiple(above, step) - quantity) <= AbsReal(Multiple(below, step) - quantity)
            <==> AbsReal(above as real - x) <= AbsReal(below as real - x)
  {
    CompareMultiples(least, below, step);
    CompareMultiples(least, above, step);
    CompareMultiples(1, least, step);
    CompareMultiples(below, above, step);
    CompareDistances(below, above, quantity, x, step);
    CompareDistances(above, below, quantity, x, step);
  }

  lemma CompareDistances(a: int, b: int, target: real, x: real, step: real)
    requires step > 0.0 && target == x * step
    ensures AbsReal(Multiple(a, step) - target) <= AbsReal(Multiple(b, step) - target)
            <==> AbsReal(a as real - x) <= AbsReal(b as real - x)
  {
    var da, sa := ScaleDistance(a, x, target, step);
    var db, sb := ScaleDistance(b, x, target, step);
    ScaledOrder(da, db, 0.0, step, sa, sb, 0.0);
  }

  /** Optimality of the BingX lot: whatever the step, minimum and reference price, the
      resolved quantity is the unique nearest admissible lot, ties going down. */
  lemma BingxResolveIsNearest(quantity: real, step: real, rawMinimum: real)
    requires 0.0 < step <= rawMinimum
    ensures IsNearestLot(BingxResolve(quantity, step, rawMinimum), quantity, step, StepCeil(rawMinimum, step))
  {
    var least, x := BingxResolveSteps(quantity, step, rawMinimum);
    NearestLotFromSteps(quantity, x, step, least);
  }

  lemma NearestLotFromSteps(target: real, x: real, step: real, least: int)
    requires step > 0.0 && target == x * step
    ensures IsNearestLot(Multiple(NearestSteps(x, least), step), target, step, Multiple(least, step))
  {
    var n := NearestSteps(x, least);
    NearestStepsOptimal(x, least, n + 1);
    CompareMultiples(least, n, step);
    forall k: int {:trigger Multiple(k, step)} | Multiple(k, step) >= Multiple(least, step) && Multiple(k, step) != Multiple(n, step)
      ensures || AbsReal(Multiple(n, step) - target) < AbsReal(Multiple(k, step) - target)
              || (AbsReal(Multiple(n, step) - target) == AbsReal(Multiple(k, step) - target)
                  && Multiple(n, step) < Multiple(k, step))
    {
      CompareMultiples(least, k, step);
      OtherLotIsWorse(n, k, target, x, step, least);
    }
  }

  lemma OtherLotIsWorse(n: int, k: int, target: real, x: real, step: real, least: int)
    requires step > 0.0 && target == x * step
    requires n == NearestSteps(x, least) && least <= k && k != n
    ensures || AbsReal(Multiple(n, step) - target) < AbsReal(Multiple(k, step) - target)
            || (AbsReal(Multiple(n, step) - target) == AbsReal(Multiple(k, step) - target)
                && Multiple(n, step) < Multiple(k, step))
  {
    NearestStepsOptimal(x, least, k);
    CompareDistances(n, k, target, x, step);
    CompareDistances(k, n, target, x, step);
    CompareMultiples(k, n, step);
  }

  lemma MultipleOnGrid(k: int, step: real, unit: real)
    requires OnGrid(step, unit)
    ensures OnGrid(Multiple(k, step), unit)
  {
    var j: int :| step == Multiple(j, unit);
    assert Multiple(k, step) == Multiple(k * j, unit);
  }

  /** More digits make a finer grid. */
  lemma {:induction false} PrecisionRefines(a: int, b: int)
    requires a <= b
    ensures OnGrid(PrecisionUnit(a), PrecisionUnit(b))
    decreases b - a
  {
    if a == b || b <= 0 {
      assert PrecisionUnit(a) == Multiple(1, PrecisionUnit(b));
    } else {
      PrecisionRefines(a, b - 1);
      assert PrecisionUnit(b - 1) == Multiple(10, PrecisionUnit(b));
      var k: int :| PrecisionUnit(a) == Multiple(k, PrecisionUnit(b - 1));
      MultipleOnGrid(k, PrecisionUnit(b - 1), PrecisionUnit(b));
    }
  }

  lemma EighthDigit()
    ensures PrecisionUnit(8) == FORMAT_UNIT
  {
    assert PrecisionUnit(1) == 0.1 && PrecisionUnit(2) == 0.01;
    assert PrecisionUnit(3) == 0.001 && PrecisionUnit(4) == 0.0001;
    assert PrecisionUnit(5) == 0.00001 && PrecisionUnit(6) == 0.000001;
    assert PrecisionUnit(7) == 0.0000001;
  }

  lemma PrecisionUnitOnFormatGrid(digits: int)
    requires digits <= 8
    ensures OnGrid(PrecisionUnit(digits), FORMAT_UNIT)
  {
    PrecisionRefines(digits, 8);
    EighthDigit();
  }

  /** On an aligned contract neither the final rounding nor the text form moves a lot. */
  lemma LotSurvivesRounding(k: int, spec: ContractSpec)
    requires Aligned(spec)
    ensures RoundToPrecision(Multiple(k, spec.sizeStep), spec.quantityPrecision) == Multiple(k, spec.sizeStep)
    ensures FormatDecimal(Multiple(k, spec.sizeStep)) == Multiple(k, spec.sizeStep)
  {
    var unit := PrecisionUnit(spec.quantityPrecision);
    MultipleOnGrid(k, spec.sizeStep, unit);
    RoundToOnGrid(Multiple(k, spec.sizeStep), unit);
    PrecisionUnitOnFormatGrid(spec.quantityPrecision);
    var j: int :| Multiple(k, spec.sizeStep) == Multiple(j, unit);
    MultipleOnGrid(j, unit, FORMAT_UNIT);
    RoundToOnGrid(Multiple(k, spec.sizeStep), FORMAT_UNIT);
  }

  /** End to end: on an aligned contract the normalised quantity, as sent, is the unique
      nearest lot at or above the venue minimum that the submit loop enforces. */
  lemma BingxNormalizeIsNearest(quantity: real, spec: ContractSpec, referencePrice: real)
    requires Aligned(spec) && quantity > 0.0
    ensures IsNearestLot(FormatDecimal(BingxNormalizeQuantity(quantity, spec, referencePrice)), quantity,
                         spec.sizeStep, BingxMinimumQuantity(spec, referencePrice))
  {
    var rawMinimum := RawMinimum(spec, referencePrice);
    var least, x := BingxResolveSteps(quantity, spec.sizeStep, rawMinimum);
    BingxResolveIsNearest(quantity, spec.sizeStep, rawMinimum);
    LotSurvivesRounding(least, spec);
    LotSurvivesRounding(NearestSteps(x, least), spec);
  }

  /** Nothing is sent for nothing, and without a step the request is only lifted to the minimum
      and rounded. */
  lemma BingxWithoutStep(quantity: real, spec: ContractSpec, referencePrice: real)
    ensures quantity <= 0.0 ==> BingxNormalizeQuantity(quantity, spec, referencePrice) == 0.0
    ensures quantity > 0.0 && spec.sizeStep <= 0.0 ==>
              var wanted := if quantity >= RawMinimum(spec, referencePrice) then quantity
                            else RawMinimum(spec, referencePrice);
              var unit := PrecisionUnit(spec.quantityPrecision);
              var r := BingxNormalizeQuantity(quantity, spec, referencePrice);
              OnGrid(r, unit) && wanted - unit / 2.0 <= r <= wanted + unit / 2.0
  {
    var wanted := MaxReal(quantity, LatticeMinimum(spec, referencePrice));
    RoundToNearest(wanted, PrecisionUnit(spec.quantityPrecision));
  }

  // ---------------------------------------------------------------- margin step-down

  datatype VenueReply = Accepted | InsufficientMargin | Rejected

  predicate CanStepDown(current: real, spec: ContractSpec, referencePrice: real, autoSized: bool) {
    && autoSized
    && spec.sizeStep > 0.0
    && current - spec.sizeStep >= MaxReal(BingxMinimumQuantity(spec, referencePrice), spec.sizeStep)
  }

  /** When a smaller order may be tried: for a size the adapter chose itself, on a contract with a
      step, as long as the minimum and one step are left. */
  lemma StepsDownExactly(current: real, spec: ContractSpec, referencePrice: real, autoSized: bool)
    ensures CanStepDown(current, spec, referencePrice, autoSized)
            <==> && autoSized && spec.sizeStep > 0.0
                 && current >= BingxMinimumQuantity(spec, referencePrice) + spec.sizeStep
                 && current >= spec.sizeStep + spec.sizeStep
  {
  }

  /** One step smaller, rounded to the contract's precision and sent as text. */
  function NextQuantity(current: real, spec: ContractSpec): real {
    FormatDecimal(RoundToPrecision(current - spec.sizeStep, spec.quantityPrecision))
  }

  /** Every quantity sent after a step-down is a multiple of this. */
  function Grain(spec: ContractSpec): real {
    if spec.quantityPrecision <= 8 then PrecisionUnit(spec.quantityPrecision) else FORMAT_UNIT
  }

  /** The step as the two roundings let it through. */
  function SentStep(spec: ContractSpec): real {
    if spec.quantityPrecision <= 8 then spec.sizeStep else RoundToPrecision(spec.sizeStep, spec.quantityPrecision)
  }

  /** Rounding never undoes the step: what makes the retry loop stop of its own accord. */
  predicate Advances(spec: ContractSpec) {
    2.0 * SentStep(spec) > Grain(spec)
  }

  /** The quantity after `i` step-downs. */
  function AfterSteps(current: real, spec: ContractSpec, i: nat): real
    decreases i
  {
    if i == 0 then current else AfterSteps(NextQuantity(current, spec), spec, i - 1)
  }

  /** Whether the retry loop ends however long the venue refuses: the steps advance, or one of
      the first three quantities is already too small to step down from. */
  predicate Stops(quantity: real, spec: ContractSpec, referencePrice: real, autoSized: bool) {
    Advances(spec) || exists i :: 0 <= i < 3 && EndsAt(quantity, spec, referencePrice, autoSized, i)
  }

  /** The quantity after `i` refusals cannot be stepped down from. */
  predicate EndsAt(quantity: real, spec: ContractSpec, referencePrice: real, autoSized: bool, i: nat) {
    !CanStepDown(AfterSteps(quantity, spec, i), spec, referencePrice, autoSized)
  }

  /** The venue answers something else sooner or later, were it asked for ever. */
  ghost predicate Relents(venue: nat -> VenueReply) {
    exists i: nat :: venue(i) != InsufficientMargin
  }

  /** A try after which there is no other. */
  lemma LastTry(quantity: real, spec: ContractSpec, referencePrice: real, autoSized: bool, venue: nat -> VenueReply)
    returns (last: nat)
    requires Stops(quantity, spec, referencePrice, autoSized) || Relents(venue)
    ensures venue(last) != InsufficientMargin || EndsAt(quantity, spec, referencePrice, autoSized, last)
  {
    if Stops(quantity, spec, referencePrice, autoSized) {
      StopsExactly(quantity, spec, referencePrice, autoSized);
      last :| EndsAt(quantity, spec, referencePrice, autoSized, last);
    } else {
      last :| venue(last) != InsufficientMargin;
    }
  }

  /** `tries` are the quantities one call submits and `falls` the fallbacks it records. */
  ghost predicate IsTrail(tries: seq<real>, falls: seq<(real, real)>, quantity: real, spec: ContractSpec,
                          referencePrice: real, autoSized: bool)
  {
    && |tries| == |falls| + 1
    && tries[0] == quantity
    && forall i :: 0 <= i < |falls| ==>
         && falls[i] == (tries[i], tries[i + 1])
         && CanStepDown(tries[i], spec, referencePrice, autoSized)
         && tries[i + 1] == NextQuantity(tries[i], spec)
  }

  /** Submits, and steps down while the venue answers "insufficient margin". The telemetry
      lists may already hold entries of an earlier call. */
  method SubmitOrder(quantity: real, spec: ContractSpec, referencePrice: real, autoSized: bool,
                     venue: nat -> VenueReply, attempts0: seq<real>, fallbacks0: seq<(real, real)>)
    returns (attempts: seq<real>, fallbacks: seq<(real, real)>, accepted: bool)
    requires Stops(quantity, spec, referencePrice, autoSized) || Relents(venue)
    ensures attempts0 <= attempts && fallbacks0 <= fallbacks
    ensures IsTrail(attempts[|attempts0|..], fallbacks[|fallbacks0|..], quantity, spec, referencePrice, autoSized)
    ensures forall i: nat :: i < |fallbacks| - |fallbacks0| ==> venue(i) == InsufficientMargin
    ensures accepted <==> venue(|fallbacks| - |fallbacks0|) == Accepted
    ensures venue(|fallbacks| - |fallbacks0|) == InsufficientMargin ==>
              !CanStepDown(attempts[|attempts| - 1], spec, referencePrice, autoSized)
  {
    var current := quantity;
    attempts, fallbacks := attempts0, fallbacks0;
    ghost var tries: seq<real>, falls: seq<(real, real)> := [], [];
    ghost var last := LastTry(quantity, spec, referencePrice, autoSized, venue);
    while true
      invariant attempts == attempts0 + tries && fallbacks == fallbacks0 + falls
      invariant IsTrail(tries + [current], falls, quantity, spec, referencePrice, autoSized)
      invariant forall i: nat :: i < |falls| ==> venue(i) == InsufficientMargin
      invariant current == AfterSteps(quantity, spec, |falls|) && |falls| <= last
      decreases last - |falls|
    {
      attempts := attempts + [current];
      assert attempts == attempts0 + (tries + [current]);
      assert attempts[|attempts0|..] == tries + [current] && fallbacks[|fallbacks0|..] == falls;
      match venue(|fallbacks| - |fallbacks0|)
      case Accepted =>
        return attempts, fallbacks, true;
      case Rejected =>
        return attempts, fallbacks, false;
      case InsufficientMargin =>
        if !CanStepDown(current, spec, referencePrice, autoSized) {
          return attempts, fallbacks, false;
        }
        var next := NextQuantity(current, spec);
        AfterStepsSnoc(quantity, spec, |falls|);
        assert !EndsAt(quantity, spec, referencePrice, autoSized, |falls|);
        fallbacks := fallbacks + [(current, next)];
        tries, falls := tries + [current], falls + [(current, next)];
        current := next;
    }
  }

  /** How many grains a quantity holds. */
  function GridSteps(current: real, spec: ContractSpec): int
  {
    var grain := Grain(spec);
    if grain > 0.0 then (current / grain).Floor else 0
  }

  lemma {:induction false} AfterStepsSnoc(current: real, spec: ContractSpec, i: nat)
    ensures AfterSteps(current, spec, i + 1) == NextQuantity(AfterSteps(current, spec, i), spec)
    decreases i
  {
    if i > 0 {
      AfterStepsSnoc(NextQuantity(current, spec), spec, i - 1);
    }
  }

  lemma NextIsOnGrid(current: real, spec: ContractSpec)
    ensures OnGrid(NextQuantity(current, spec), Grain(spec))
  {
    if spec.quantityPrecision <= 8 {
      NextQuantityIsRounded(current, spec);
      RoundToNearest(current - spec.sizeStep, Grain(spec));
    } else {
      RoundToNearest(RoundToPrecision(current - spec.sizeStep, spec.quantityPrecision), FORMAT_UNIT);
    }
  }

  lemma GridStepsDrop(current: real, spec: ContractSpec)
    requires Advances(spec) && spec.sizeStep > 0.0 && OnGrid(current, Grain(spec)) && current >= 0.0
    ensures 0 <= GridSteps(current, spec)
    ensures GridSteps(NextQuantity(current, spec), spec) < GridSteps(current, spec)
  {
    var grain := Grain(spec);
    var n: int :| current == Multiple(n, grain);
    NextIsOnGrid(current, spec);
    var k: int :| NextQuantity(current, spec) == Multiple(k, grain);
    StepDownProgress(n, spec);
    CompareMultiples(n, k, grain);
    CompareMultiples(0, n, grain);
    DivMultiple(n, grain);
    DivMultiple(k, grain);
  }

  lemma NextQuantityIsRounded(current: real, spec: ContractSpec)
    requires spec.quantityPrecision <= 8
    ensures NextQuantity(current, spec) == RoundToPrecision(current - spec.sizeStep, spec.quantityPrecision)
  {
    var unit := PrecisionUnit(spec.quantityPrecision);
    RoundToNearest(current - spec.sizeStep, unit);
    PrecisionUnitOnFormatGrid(spec.quantityPrecision);
    var k: int :| RoundTo(current - spec.sizeStep, unit) == Multiple(k, unit);
    MultipleOnGrid(k, unit, FORMAT_UNIT);
    RoundToOnGrid(Multiple(k, unit), FORMAT_UNIT);
  }

  lemma QuotientIs(x: real, q: real, unit: real)
    requires unit > 0.0 && q * unit == x
    ensures x / unit == q
  {
  }

  /** Rounding half to even commutes with reflection about an even number. */
  lemma RoundHalfEvenReflects(m: int, y: real)
    ensures RoundHalfEven((2 * m) as real - y) == 2 * m - RoundHalfEven(y)
  {
  }

  /** The finer of two precisions divides the coarser one evenly, an even number of times. */
  lemma EvenlyFiner(digits: int) returns (m: int)
    requires digits > 8
    ensures FORMAT_UNIT == Multiple(2 * m, PrecisionUnit(digits))
  {
    PrecisionRefines(8, digits - 1);
    EighthDigit();
    var k: int :| FORMAT_UNIT == Multiple(k, PrecisionUnit(digits - 1));
    assert PrecisionUnit(digits - 1) == Multiple(10, PrecisionUnit(digits));
    m := 5 * k;
    assert Multiple(k, Multiple(10, PrecisionUnit(digits))) == Multiple(10 * k, PrecisionUnit(digits));
  }

  lemma RoundReflects(n: int, step: real, y: real, fine: real, m: int)
    requires fine > 0.0 && step == y * fine
    ensures RoundTo(Multiple(2 * m * n, fine) - step, fine) == Multiple(2 * m * n, fine) - RoundTo(step, fine)
  {
    var z := (2 * m * n) as real - y;
    QuotientIs(step, y, fine);
    ScaledGap(y, (2 * m * n) as real, 0.0, fine, step, Multiple(2 * m * n, fine), 0.0, z);
    QuotientIs(Multiple(2 * m * n, fine) - step, z, fine);
    RoundHalfEvenReflects(m * n, y);
    assert 2 * (m * n) == 2 * m * n;
    var r := RoundHalfEven(y);
    assert Multiple(2 * m * n - r, fine) == Multiple(2 * m * n, fine) - Multiple(r, fine);
  }

  /** From a quantity on the grain, both roundings together are one: of the step sent. */
  lemma NextOnGrid(n: int, spec: ContractSpec)
    ensures NextQuantity(Multiple(n, Grain(spec)), spec)
            == RoundTo(Multiple(n, Grain(spec)) - SentStep(spec), Grain(spec))
  {
    if spec.quantityPrecision <= 8 {
      NextQuantityIsRounded(Multiple(n, Grain(spec)), spec);
    } else {
      var fine := PrecisionUnit(spec.quantityPrecision);
      var m := EvenlyFiner(spec.quantityPrecision);
      DivThenTimes(spec.sizeStep, fine);
      RoundReflects(n, spec.sizeStep, spec.sizeStep / fine, fine, m);
      assert Multiple(n, Multiple(2 * m, fine)) == Multiple(2 * m * n, fine);
    }
  }

  /** When the loop makes progress: exactly when the step sent exceeds half the grain, or equals
      it at an odd multiple. Otherwise the next quantity is the current one. */
  lemma StepDownProgress(n: int, spec: ContractSpec)
    requires spec.sizeStep > 0.0
    ensures var grain := Grain(spec);
            var current := Multiple(n, grain);
            && (NextQuantity(current, spec) < current <==>
                  2.0 * SentStep(spec) > grain || (2.0 * SentStep(spec) == grain && n % 2 == 1))
            && NextQuantity(current, spec) <= current
            && (2.0 * SentStep(spec) == grain && n % 2 == 1 ==> NextQuantity(current, spec) == Multiple(n - 1, grain))
  {
    var grain := Grain(spec);
    NextOnGrid(n, spec);
    SentStepNotNegative(spec);
    var y := SentStep(spec) / grain;
    DivThenTimes(SentStep(spec), grain);
    ShiftedRounding(n, SentStep(spec), y, grain);
  }

  lemma SentStepNotNegative(spec: ContractSpec)
    requires spec.sizeStep > 0.0
    ensures SentStep(spec) >= 0.0
  {
    var unit := PrecisionUnit(spec.quantityPrecision);
    assert 0.0 == Multiple(0, unit);
    RoundToKeepsBound(spec.sizeStep, 0.0, unit);
  }

  lemma ShiftedRounding(n: int, step: real, y: real, unit: real)
    requires unit > 0.0 && step == y * unit && step >= 0.0
    ensures RoundTo(Multiple(n, unit) - step, unit) < Multiple(n, unit) <==>
              2.0 * step > unit || (2.0 * step == unit && n % 2 == 1)
    ensures RoundTo(Multiple(n, unit) - step, unit) <= Multiple(n, unit)
    ensures 2.0 * step == unit && n % 2 == 1 ==>
              RoundTo(Multiple(n, unit) - step, unit) == Multiple(n - 1, unit)
  {
    var z := n as real - y;
    ScaledGap(y, n as real, 0.0, unit, step, Multiple(n, unit), 0.0, z);
    QuotientIs(Multiple(n, unit) - step, z, unit);
    assert RoundTo(Multiple(n, unit) - step, unit) == Multiple(RoundHalfEven(z), unit);
    HalfUnit(step, y, unit);
    ProductSign(y, unit);
    RoundBelow(n, y);
    CompareMultiples(RoundHalfEven(z), n, unit);
    CompareMultiples(n, RoundHalfEven(z), unit);
  }

  lemma HalfUnit(step: real, y: real, unit: real)
    requires unit > 0.0 && step == y * unit
    ensures 2.0 * step > unit <==> y > 0.5
    ensures 2.0 * step == unit <==> y == 0.5
  {
    ScaledOrder(y, 0.5, 0.0, unit, step, 0.5 * unit, 0.0);
  }

  lemma RoundBelow(n: int, y: real)
    requires y >= 0.0
    ensures RoundHalfEven(n as real - y) < n <==> y > 0.5 || (y == 0.5 && n % 2 == 1)
    ensures y == 0.5 && n % 2 == 1 ==> RoundHalfEven(n as real - y) == n - 1
    ensures RoundHalfEven(n as real - y) <= n
  {
  }

  /** If the steps do not advance, one step from the grid is the last that moves. */
  lemma StallsOnGrid(current: real, spec: ContractSpec)
    requires !Advances(spec) && spec.sizeStep > 0.0 && OnGrid(current, Grain(spec))
    ensures NextQuantity(NextQuantity(current, spec), spec) == NextQuantity(current, spec)
  {
    hide NextQuantity, Grain, SentStep, Multiple;
    var n: int :| current == Multiple(n, Grain(spec));
    StepDownProgress(n, spec);
    if NextQuantity(current, spec) < current {
      StepDownProgress(n - 1, spec);
    }
  }

  lemma StallsByThree(quantity: real, spec: ContractSpec)
    requires !Advances(spec) && spec.sizeStep > 0.0
    ensures NextQuantity(AfterSteps(quantity, spec, 2), spec) == AfterSteps(quantity, spec, 2)
  {
    AfterStepsSnoc(quantity, spec, 0);
    AfterStepsSnoc(quantity, spec, 1);
    NextIsOnGrid(quantity, spec);
    StallsOnGrid(NextQuantity(quantity, spec), spec);
  }

  lemma {:induction false} StallsForEver(quantity: real, spec: ContractSpec, i: nat)
    requires !Advances(spec) && spec.sizeStep > 0.0
    ensures i >= 2 ==> AfterSteps(quantity, spec, i) == AfterSteps(quantity, spec, 2)
  {
    if i > 2 {
      StallsForEver(quantity, spec, i - 1);
      AfterStepsSnoc(quantity, spec, i - 1);
      StallsByThree(quantity, spec);
    }
  }

  /** Steps that advance come to an end. */
  lemma {:induction false} StepDownEnds(current: real, spec: ContractSpec, referencePrice: real, autoSized: bool)
    returns (i: nat)
    requires Advances(spec) && OnGrid(current, Grain(spec))
    ensures !CanStepDown(AfterSteps(current, spec, i), spec, referencePrice, autoSized)
    decreases if CanStepDown(current, spec, referencePrice, autoSized) then GridSteps(current, spec) + 1 else 0
  {
    if !CanStepDown(current, spec, referencePrice, autoSized) {
      return 0;
    }
    GridStepsDrop(current, spec);
    NextIsOnGrid(current, spec);
    NextNotBelowZero(current, spec);
    var j := StepDownEnds(NextQuantity(current, spec), spec, referencePrice, autoSized);
    i := j + 1;
  }

  lemma NextNotBelowZero(current: real, spec: ContractSpec)
    ensures current >= spec.sizeStep ==> NextQuantity(current, spec) >= 0.0
    ensures NextQuantity(current, spec) >= 0.0 ==> GridSteps(NextQuantity(current, spec), spec) >= 0
  {
    var unit := PrecisionUnit(spec.quantityPrecision);
    assert 0.0 == Multiple(0, unit) == Multiple(0, FORMAT_UNIT);
    RoundToKeepsBound(current - spec.sizeStep, 0.0, unit);
    RoundToKeepsBound(RoundToPrecision(current - spec.sizeStep, spec.quantityPrecision), 0.0, FORMAT_UNIT);
    if NextQuantity(current, spec) >= 0.0 {
      DivMonotone(0.0, NextQuantity(current, spec), Grain(spec));
    }
  }

  lemma AdvancingEnds(quantity: real, spec: ContractSpec, referencePrice: real, autoSized: bool) returns (i: nat)
    requires Advances(spec)
    ensures EndsAt(quantity, spec, referencePrice, autoSized, i)
  {
    NextIsOnGrid(quantity, spec);
    var j := StepDownEnds(NextQuantity(quantity, spec), spec, referencePrice, autoSized);
    i := j + 1;
  }

  lemma StalledNeverEnds(quantity: real, spec: ContractSpec, referencePrice: real, autoSized: bool, i: nat)
    requires !Stops(quantity, spec, referencePrice, autoSized)
    ensures !EndsAt(quantity, spec, referencePrice, autoSized, i)
  {
    assert !EndsAt(quantity, spec, referencePrice, autoSized, 0);
    assert !EndsAt(quantity, spec, referencePrice, autoSized, 2);
    StallsForEver(quantity, spec, i);
  }

  /** The loop's precondition is exact: it holds if and only if, after some number of refusals,
      there is a quantity that cannot be stepped down from. */
  lemma StopsExactly(quantity: real, spec: ContractSpec, referencePrice: real, autoSized: bool)
    ensures Stops(quantity, spec, referencePrice, autoSized)
            <==> exists i: nat :: EndsAt(quantity, spec, referencePrice, autoSized, i)
  {
    if Advances(spec) {
      var i := AdvancingEnds(quantity, spec, referencePrice, autoSized);
    }
    if !Stops(quantity, spec, referencePrice, autoSized) {
      forall i: nat ensures !EndsAt(quantity, spec, referencePrice, autoSized, i) {
        StalledNeverEnds(quantity, spec, referencePrice, autoSized, i);
      }
    }
  }

  /** A contract that trades in 0.4 lots but whole-number precision never gets below 2:
      the loop would resubmit the same quantity for as long as the venue refuses it. */
  lemma StepDownCanStall()
    ensures var spec := ContractSpec(0.4, 0, 0.4, 0.0);
            CanStepDown(2.0, spec, 1.0, true) && NextQuantity(2.0, spec) == 2.0
  {
    var spec := ContractSpec(0.4, 0, 0.4, 0.0);
    StepDownProgress(2, spec);
    NextQuantityIsRounded(2.0, spec);
    assert RoundHalfEven(1.6) == 2;
    LatticeMinimumIs(0.4, 0.4);
  }

  lemma LatticeMinimumIs(raw: real, step: real)
    requires raw == step > 0.0
    ensures StepCeil(raw, step) == step
  {
    assert raw / step == 1.0;
    assert Ceil(1.0 - TOLERANCE) == 1;
  }

  lemma AlignedAdvances(spec: ContractSpec)
    requires Aligned(spec)
    ensures Advances(spec)
  {
    var unit := PrecisionUnit(spec.quantityPrecision);
    var k: int :| spec.sizeStep == Multiple(k, unit);
    CompareMultiples(k, 0, unit);
    CompareMultiples(1, k, unit);
  }

  lemma MultipleSuccessor(m: int, step: real)
    ensures Multiple(m + 1, step) == Multiple(m, step) + step
  {
  }

  lemma NextLot(m: int, current: real, spec: ContractSpec)
    requires Aligned(spec) && current == Multiple(m + 1, spec.sizeStep)
    ensures NextQuantity(current, spec) == Multiple(m, spec.sizeStep) == current - spec.sizeStep
  {
    MultipleSuccessor(m, spec.sizeStep);
    LotSurvivesRounding(m, spec);
  }

  /** On an aligned contract every try is one whole lot below the one before, on the step
      lattice, and never below the venue minimum. */
  lemma {:induction false} TrailStaysOnLattice(tries: seq<real>, falls: seq<(real, real)>, n: int, spec: ContractSpec,
                                               referencePrice: real, autoSized: bool, i: nat)
    requires Aligned(spec) && i < |tries|
    requires IsTrail(tries, falls, Multiple(n, spec.sizeStep), spec, referencePrice, autoSized)
    requires Multiple(n, spec.sizeStep) >= BingxMinimumQuantity(spec, referencePrice)
    ensures tries[i] == Multiple(n - i, spec.sizeStep) >= BingxMinimumQuantity(spec, referencePrice)
    ensures i > 0 ==> tries[i] == tries[i - 1] - spec.sizeStep
  {
    if i > 0 {
      TrailStaysOnLattice(tries, falls, n, spec, referencePrice, autoSized, i - 1);
      assert falls[i - 1] == (tries[i - 1], tries[i]);
      NextLot(n - i, tries[i - 1], spec);
    }
  }

  /** Normalise, then submit: whatever quantity was asked for and whatever the venue answers,
      everything that reaches the venue is an admissible lot. */
  lemma SubmittedLotsAreAdmissible(quantity: real, tries: seq<real>, falls: seq<(real, real)>, spec: ContractSpec,
                                   referencePrice: real, autoSized: bool, i: nat)
    requires Aligned(spec) && quantity > 0.0 && i < |tries|
    requires IsTrail(tries, falls, FormatDecimal(BingxNormalizeQuantity(quantity, spec, referencePrice)), spec,
                     referencePrice, autoSized)
    ensures OnGrid(tries[i], spec.sizeStep)
    ensures tries[i] >= BingxMinimumQuantity(spec, referencePrice) >= spec.sizeStep
    ensures i > 0 ==> tries[i] == tries[i - 1] - spec.sizeStep
  {
    BingxNormalizeIsNearest(quantity, spec, referencePrice);
    var sent := FormatDecimal(BingxNormalizeQuantity(quantity, spec, referencePrice));
    var n: int :| sent == Multiple(n, spec.sizeStep);
    TrailStaysOnLattice(tries, falls, n, spec, referencePrice, autoSized, i);
    var least, x := BingxResolveSteps(quantity, spec.sizeStep, RawMinimum(spec, referencePrice));
    LotSurvivesRounding(least, spec);
    CompareMultiples(1, least, spec.sizeStep);
  }

  // ---------------------------------------------------------------- Bybit

  datatype InstrumentSpec = InstrumentSpec(
    qtyStep: real,
    minQty: real,
    maxMarketQty: real,
    maxQty: real,
    minNotional: real,
    basePrecision: int)

  function BybitMinimum(spec: InstrumentSpec, referencePrice: real): real {
    var byNotional := if referencePrice > 0.0 && spec.minNotional > 0.0
                      then spec.minNotional / MaxReal(referencePrice, MIN_REFERENCE) else 0.0;
    MaxReal(MaxReal(spec.minQty, spec.qtyStep), byNotional)
  }

  function BybitCap(spec: InstrumentSpec): real {
    if spec.maxMarketQty <= 0.0 then spec.maxQty else spec.maxMarketQty
  }

  /** What a request below the minimum is lifted to before it is stepped. */
  function BybitLifted(spec: InstrumentSpec, referencePrice: real, notional: real): real {
    var minimum := BybitMinimum(spec, referencePrice);
    MaxReal(minimum, if referencePrice > 0.0 then notional / MaxReal(referencePrice, MIN_REFERENCE) else minimum)
  }

  function BybitUncapped(quantity: real, spec: InstrumentSpec, referencePrice: real, notional: real): real {
    var minimum := BybitMinimum(spec, referencePrice);
    if spec.qtyStep > 0.0 then
      var floored := StepFloor(quantity, spec.qtyStep);
      if floored < minimum then
        StepCeil(BybitLifted(spec, referencePrice, notional), spec.qtyStep)
      else floored
    else MaxReal(quantity, minimum)
  }

  function BybitResolve(quantity: real, spec: InstrumentSpec, referencePrice: real, notional: real): real {
    var uncapped := BybitUncapped(quantity, spec, referencePrice, notional);
    if BybitCap(spec) > 0.0 then
      var cap := StepFloor(BybitCap(spec), spec.qtyStep);
      if uncapped <= cap then uncapped else cap
    else uncapped
  }

  function BybitNormalizeQuantity(quantity: real, spec: InstrumentSpec, referencePrice: real, notional: real): real {
    if quantity <= 0.0 then 0.0
    else RoundToPrecision(BybitResolve(quantity, spec, referencePrice, notional), spec.basePrecision)
  }

  /** What the two step functions promise: the last multiple at or below, the first at or
      above, each with a slack of 1e-12 steps. */
  lemma StepBounds(value: real, step: real)
    requires step > 0.0
    ensures OnGrid(StepFloor(value, step), step) && OnGrid(StepCeil(value, step), step)
    ensures StepFloor(value, step) <= value + TOLERANCE * step < StepFloor(value, step) + step
    ensures StepCeil(value, step) - step < value - TOLERANCE * step <= StepCeil(value, step)
  {
    var x := value / step;
    var down := (x + TOLERANCE).Floor;
    var up := Ceil(x - TOLERANCE);
    assert StepFloor(value, step) == Multiple(down, step);
    assert StepCeil(value, step) == Multiple(up, step);
    DivThenTimes(value, step);
    ScaleBounds(down, up, x, value, step);
  }

  lemma ScaleBounds(down: int, up: int, x: real, value: real, step: real)
    requires step > 0.0 && value == x * step
    requires down as real <= x + TOLERANCE < down as real + 1.0
    requires up as real - 1.0 < x - TOLERANCE <= up as real
    ensures Multiple(down, step) <= value + TOLERANCE * step < Multiple(down, step) + step
    ensures Multiple(up, step) - step < value - TOLERANCE * step <= Multiple(up, step)
  {
    var slack := TOLERANCE * step;
    ScaledOrder(down as real, x, TOLERANCE, step, Multiple(down, step), value, slack);
    ScaledOrder(x, up as real, TOLERANCE, step, value, Multiple(up, step), slack);
    ScaledOrder(x, down as real, 1.0 - TOLERANCE, step, value, Multiple(down, step), step - slack);
    ScaledOrder(up as real, x, 1.0 - TOLERANCE, step, Multiple(up, step), value, step - slack);
  }

  /** What reaches the Bybit minimum, and what a request below it is lifted to: the least quantity
      and one step, worth the contract's notional, and then also the notional asked for. */
  lemma BybitMinimumIs(x: real, spec: InstrumentSpec, referencePrice: real, notional: real)
    ensures x >= BybitMinimum(spec, referencePrice)
            <==> && x >= spec.minQty && x >= spec.qtyStep && x >= 0.0
                 && (referencePrice > 0.0 && spec.minNotional > 0.0 ==> x * At(referencePrice) >= spec.minNotional)
    ensures x >= BybitLifted(spec, referencePrice, notional)
            <==> x >= BybitMinimum(spec, referencePrice) && (referencePrice > 0.0 ==> x * At(referencePrice) >= notional)
  {
    QuotientBound(x, spec.minNotional, At(referencePrice));
    QuotientBound(0.0, spec.minNotional, At(referencePrice));
    QuotientBound(x, notional, At(referencePrice));
  }

  /** Nothing is sent for nothing. */
  lemma BybitNothingForNothing(quantity: real, spec: InstrumentSpec, referencePrice: real, notional: real)
    ensures quantity <= 0.0 ==> BybitNormalizeQuantity(quantity, spec, referencePrice, notional) == 0.0
  {
  }

  /** The last multiple at or below `value`, within the tolerance. */
  ghost predicate IsLotBelow(r: real, value: real, step: real) {
    OnGrid(r, step) && r <= value + TOLERANCE * step < r + step
  }

  /** The first multiple at or above `value`, within the tolerance. */
  ghost predicate IsLotAbove(r: real, value: real, step: real) {
    OnGrid(r, step) && r - step < value - TOLERANCE * step <= r
  }

  /** The lot a request calls for, the cap aside: the last one within the request when that
      reaches the minimum, else the first one to reach both the minimum and the notional. */
  ghost predicate IsWantedLot(r: real, quantity: real, spec: InstrumentSpec, referencePrice: real, notional: real) {
    if StepFloor(quantity, spec.qtyStep) >= BybitMinimum(spec, referencePrice)
    then IsLotBelow(r, quantity, spec.qtyStep)
    else IsLotAbove(r, BybitLifted(spec, referencePrice, notional), spec.qtyStep)
  }

  /** What the Bybit lot has to be: the lot the request calls for; where that exceeds the cap,
      and only there, the last lot within the cap. */
  ghost predicate IsBybitLot(r: real, quantity: real, spec: InstrumentSpec, referencePrice: real, notional: real) {
    var cap := if spec.maxMarketQty > 0.0 then spec.maxMarketQty else spec.maxQty;
    if cap <= 0.0 then IsWantedLot(r, quantity, spec, referencePrice, notional)
    else
      exists wanted: real :: IsWantedLot(wanted, quantity, spec, referencePrice, notional) &&
        if IsWithin(wanted, cap, spec.qtyStep) then r == wanted else IsLotBelow(r, cap, spec.qtyStep)
  }

  /** A multiple within the cap, tolerance included. */
  predicate IsWithin(r: real, cap: real, step: real) {
    r <= cap + TOLERANCE * step
  }

  lemma GridGap(a: real, b: real, step: real)
    requires step > 0.0 && OnGrid(a, step) && OnGrid(b, step) && a < b
    ensures a + step <= b
  {
    var j: int :| a == Multiple(j, step);
    var k: int :| b == Multiple(k, step);
    CompareMultiples(j, k, step);
    CompareMultiples(k, j, step);
    CompareMultiples(j + 1, k, step);
    MultipleSuccessor(j, step);
  }

  lemma LotBelowIsUnique(a: real, b: real, value: real, step: real)
    requires step > 0.0 && IsLotBelow(a, value, step) && IsLotBelow(b, value, step)
    ensures a == b
  {
    if a < b {
      GridGap(a, b, step);
    } else if b < a {
      GridGap(b, a, step);
    }
  }

  lemma LotAboveIsUnique(a: real, b: real, value: real, step: real)
    requires step > 0.0 && IsLotAbove(a, value, step) && IsLotAbove(b, value, step)
    ensures a == b
  {
    if a < b {
      GridGap(a, b, step);
    } else if b < a {
      GridGap(b, a, step);
    }
  }

  lemma WantedIsUnique(a: real, b: real, quantity: real, spec: InstrumentSpec, referencePrice: real, notional: real)
    requires spec.qtyStep > 0.0
    requires IsWantedLot(a, quantity, spec, referencePrice, notional)
    requires IsWantedLot(b, quantity, spec, referencePrice, notional)
    ensures a == b
  {
    if StepFloor(quantity, spec.qtyStep) >= BybitMinimum(spec, referencePrice) {
      LotBelowIsUnique(a, b, quantity, spec.qtyStep);
    } else {
      LotAboveIsUnique(a, b, BybitLifted(spec, referencePrice, notional), spec.qtyStep);
    }
  }

  /** A lot is within the cap exactly if it is at most the cap's own lot. */
  lemma WithinCap(r: real, cap: real, step: real)
    requires step > 0.0 && OnGrid(r, step)
    ensures IsWithin(r, cap, step) <==> r <= StepFloor(cap, step)
  {
    StepBounds(cap, step);
    if StepFloor(cap, step) < r {
      GridGap(StepFloor(cap, step), r, step);
    }
  }

  lemma UncappedIsWanted(quantity: real, spec: InstrumentSpec, referencePrice: real, notional: real)
    requires spec.qtyStep > 0.0
    ensures IsWantedLot(BybitUncapped(quantity, spec, referencePrice, notional), quantity, spec, referencePrice,
                        notional)
  {
    StepBounds(quantity, spec.qtyStep);
    StepBounds(BybitLifted(spec, referencePrice, notional), spec.qtyStep);
  }

  /** Before the final rounding the adapter has the Bybit lot, and there is only one. */
  lemma BybitResolveIsTheLot(r: real, quantity: real, spec: InstrumentSpec, referencePrice: real, notional: real)
    requires spec.qtyStep > 0.0 && quantity > 0.0
    ensures IsBybitLot(r, quantity, spec, referencePrice, notional)
            <==> r == BybitResolve(quantity, spec, referencePrice, notional)
  {
    var step, cap := spec.qtyStep, BybitCap(spec);
    var uncapped := BybitUncapped(quantity, spec, referencePrice, notional);
    UncappedIsWanted(quantity, spec, referencePrice, notional);
    WithinCap(uncapped, cap, step);
    StepBounds(cap, step);
    if IsBybitLot(r, quantity, spec, referencePrice, notional) {
      var wanted := if cap <= 0.0 then r else
        var w: real :| IsWantedLot(w, quantity, spec, referencePrice, notional) &&
                       if IsWithin(w, cap, step) then r == w else IsLotBelow(r, cap, step);
        w;
      WantedIsUnique(wanted, uncapped, quantity, spec, referencePrice, notional);
      if cap > 0.0 && !IsWithin(wanted, cap, step) {
        LotBelowIsUnique(r, StepFloor(cap, step), cap, step);
      }
    }
  }

  /** What that means for the caller: a multiple of the step, within the cap; and either within
      the request or the first to reach minimum and notional, unless every lot that is so
      exceeds the cap. */
  lemma BybitLotBounds(r: real, quantity: real, spec: InstrumentSpec, referencePrice: real, notional: real)
    requires spec.qtyStep > 0.0 && quantity > 0.0
    requires IsBybitLot(r, quantity, spec, referencePrice, notional)
    ensures var slack, minimum := TOLERANCE * spec.qtyStep, BybitMinimum(spec, referencePrice);
            && OnGrid(r, spec.qtyStep)
            && (BybitCap(spec) > 0.0 ==> r <= BybitCap(spec) + slack)
            && (IsWantedLot(r, quantity, spec, referencePrice, notional) ==>
                  && r >= minimum - slack
                  && (StepFloor(quantity, spec.qtyStep) >= minimum ==> r <= quantity + slack < r + spec.qtyStep)
                  && (StepFloor(quantity, spec.qtyStep) < minimum && referencePrice > 0.0 ==>
                        r >= notional / MaxReal(referencePrice, MIN_REFERENCE) - slack))
            && (!IsWantedLot(r, quantity, spec, referencePrice, notional) ==>
                  && BybitCap(spec) > 0.0
                  && forall wanted: real :: IsWantedLot(wanted, quantity, spec, referencePrice, notional) ==>
                       wanted > BybitCap(spec) + slack)
  {
    StepBounds(quantity, spec.qtyStep);
    if IsWantedLot(r, quantity, spec, referencePrice, notional) {
      if StepFloor(quantity, spec.qtyStep) >= BybitMinimum(spec, referencePrice) {
        LotBelowIsUnique(r, StepFloor(quantity, spec.qtyStep), quantity, spec.qtyStep);
      }
    } else {
      forall wanted: real | IsWantedLot(wanted, quantity, spec, referencePrice, notional)
        ensures wanted > BybitCap(spec) + TOLERANCE * spec.qtyStep
      {
        var w: real :| IsWantedLot(w, quantity, spec, referencePrice, notional) &&
                       if IsWithin(w, BybitCap(spec), spec.qtyStep) then r == w
                       else IsLotBelow(r, BybitCap(spec), spec.qtyStep);
        WantedIsUnique(wanted, w, quantity, spec, referencePrice, notional);
      }
    }
  }

  // ---------------------------------------------------------------- the Bybit quantity returned

  /** When the final rounding leaves the resolved quantity alone, call by call. */
  lemma BybitRoundingKeepsIff(quantity: real, spec: InstrumentSpec, referencePrice: real, notional: real)
    requires quantity > 0.0
    ensures var resolved := BybitResolve(quantity, spec, referencePrice, notional);
            BybitNormalizeQuantity(quantity, spec, referencePrice, notional) == resolved
            <==> OnGrid(resolved, PrecisionUnit(spec.basePrecision))
  {
    RoundToFixes(BybitResolve(quantity, spec, referencePrice, notional), PrecisionUnit(spec.basePrecision));
  }

  /** When the quantity the adapter returns is the Bybit lot, call by call. */
  lemma BybitReturnsTheLotIff(quantity: real, spec: InstrumentSpec, referencePrice: real, notional: real)
    requires spec.qtyStep > 0.0 && quantity > 0.0
    ensures IsBybitLot(BybitNormalizeQuantity(quantity, spec, referencePrice, notional), quantity, spec,
                       referencePrice, notional)
            <==> OnGrid(BybitResolve(quantity, spec, referencePrice, notional), PrecisionUnit(spec.basePrecision))
  {
    var returned := BybitNormalizeQuantity(quantity, spec, referencePrice, notional);
    BybitResolveIsTheLot(returned, quantity, spec, referencePrice, notional);
    BybitRoundingKeepsIff(quantity, spec, referencePrice, notional);
  }

  lemma ResolvedOnGrid(quantity: real, spec: InstrumentSpec, referencePrice: real, notional: real)
    requires spec.qtyStep > 0.0 && quantity > 0.0 && OnGrid(spec.qtyStep, PrecisionUnit(spec.basePrecision))
    ensures OnGrid(BybitResolve(quantity, spec, referencePrice, notional), PrecisionUnit(spec.basePrecision))
  {
    StepBounds(quantity, spec.qtyStep);
    StepBounds(BybitCap(spec), spec.qtyStep);
    StepBounds(BybitLifted(spec, referencePrice, notional), spec.qtyStep);
    var k: int :| BybitResolve(quantity, spec, referencePrice, notional) == Multiple(k, spec.qtyStep);
    MultipleOnGrid(k, spec.qtyStep, PrecisionUnit(spec.basePrecision));
  }

  /** In particular, where the step is a multiple of the precision unit it always is. */
  lemma BybitNormalizeBounds(quantity: real, spec: InstrumentSpec, referencePrice: real, notional: real)
    requires spec.qtyStep > 0.0 && quantity > 0.0 && OnGrid(spec.qtyStep, PrecisionUnit(spec.basePrecision))
    ensures IsBybitLot(BybitNormalizeQuantity(quantity, spec, referencePrice, notional), quantity, spec,
                       referencePrice, notional)
  {
    ResolvedOnGrid(quantity, spec, referencePrice, notional);
    BybitReturnsTheLotIff(quantity, spec, referencePrice, notional);
  }

  /** A lot at or above the minimum and within the cap is resolved to itself. */
  lemma LotResolvesToItself(k: int, spec: InstrumentSpec, referencePrice: real, notional: real)
    requires spec.qtyStep > 0.0 && Multiple(k, spec.qtyStep) >= BybitMinimum(spec, referencePrice)
    requires BybitCap(spec) > 0.0 ==> Multiple(k, spec.qtyStep) <= StepFloor(BybitCap(spec), spec.qtyStep)
    ensures BybitResolve(Multiple(k, spec.qtyStep), spec, referencePrice, notional) == Multiple(k, spec.qtyStep)
  {
    LotIsItsOwnFloor(k, spec.qtyStep);
  }

  lemma LotIsItsOwnFloor(k: int, step: real)
    requires step > 0.0
    ensures StepFloor(Multiple(k, step), step) == Multiple(k, step)
  {
    var value := Multiple(k, step);
    DivMultiple(k, step);
    assert (k as real + TOLERANCE).Floor == k;
    assert StepFloor(value, step) == (value / step + TOLERANCE).Floor as real * step;
  }

  lemma GridDifference(a: real, b: real, unit: real)
    requires OnGrid(a, unit) && OnGrid(b, unit)
    ensures OnGrid(b - a, unit)
  {
    var j: int :| a == Multiple(j, unit);
    var k: int :| b == Multiple(k, unit);
    assert Multiple(k - j, unit) == b - a;
  }

  /** Two neighbouring lots that every request between minimum and cap may resolve to. */
  lemma FirstLot(minimum: real, step: real) returns (k: int)
    requires step > 0.0
    ensures k == Ceil(minimum / step) && minimum <= Multiple(k, step) < minimum + step
    ensures Multiple(k + 1, step) == Multiple(k, step) + step
  {
    var x := minimum / step;
    k := Ceil(x);
    DivThenTimes(minimum, step);
    ScaledOrder(x, k as real, 0.0, step, minimum, Multiple(k, step), 0.0);
    ScaledOrder(k as real, x, 1.0, step, Multiple(k, step), minimum, step);
    MultipleSuccessor(k, step);
  }

  /** Two neighbouring lots from the minimum up fit within the cap. */
  predicate HasRoom(spec: InstrumentSpec, referencePrice: real)
    requires spec.qtyStep > 0.0
  {
    BybitCap(spec) <= 0.0
    || IsWithin(Multiple(Ceil(BybitMinimum(spec, referencePrice) / spec.qtyStep) + 1, spec.qtyStep), BybitCap(spec),
                spec.qtyStep)
  }

  /** With room every lot may be asked for, so the step has to be a multiple of the precision
      unit. Without, only two lots are ever returned: the cap's, and the lifted one if smaller. */
  ghost predicate PrecisionFits(spec: InstrumentSpec, referencePrice: real, notional: real)
    requires spec.qtyStep > 0.0
  {
    var unit := PrecisionUnit(spec.basePrecision);
    var cap := StepFloor(BybitCap(spec), spec.qtyStep);
    if HasRoom(spec, referencePrice) then OnGrid(spec.qtyStep, unit)
    else
      var lifted := StepCeil(BybitLifted(spec, referencePrice, notional), spec.qtyStep);
      OnGrid(cap, unit) && OnGrid(MinReal(cap, lifted), unit)
  }

  lemma WithoutRoom(quantity: real, spec: InstrumentSpec, referencePrice: real, notional: real)
    requires spec.qtyStep > 0.0 && !HasRoom(spec, referencePrice)
    ensures var cap := StepFloor(BybitCap(spec), spec.qtyStep);
            BybitResolve(quantity, spec, referencePrice, notional)
            == if StepFloor(quantity, spec.qtyStep) >= BybitMinimum(spec, referencePrice) then cap
               else MinReal(cap, StepCeil(BybitLifted(spec, referencePrice, notional), spec.qtyStep))
  {
    var step, minimum := spec.qtyStep, BybitMinimum(spec, referencePrice);
    var floor, cap := StepFloor(quantity, step), StepFloor(BybitCap(spec), step);
    StepBounds(quantity, step);
    StepBounds(BybitCap(spec), step);
    var k := FirstLot(minimum, step);
    WithinCap(Multiple(k + 1, step), BybitCap(spec), step);
    if minimum <= floor < cap {
      GridGap(floor, cap, step);
      assert OnGrid(Multiple(k, step), step) && OnGrid(Multiple(k + 1, step), step);
      GridGap(cap, Multiple(k + 1, step), step);
      GridGap(floor, Multiple(k, step), step);
    }
  }

  lemma TinyRequest(spec: InstrumentSpec, referencePrice: real)
    requires spec.qtyStep > 0.0
    ensures StepFloor(spec.qtyStep / 2.0, spec.qtyStep) < BybitMinimum(spec, referencePrice)
  {
    assert spec.qtyStep / 2.0 / spec.qtyStep == 0.5;
    assert (0.5 + TOLERANCE).Floor == 0;
  }

  /** When the final rounding is harmless, every request getting the Bybit lot: exactly when the
      precision fits the contract. */
  lemma BybitRoundingHarmlessIff(spec: InstrumentSpec, referencePrice: real, notional: real)
    requires spec.qtyStep > 0.0
    ensures (forall quantity: real :: quantity > 0.0 ==>
               IsBybitLot(BybitNormalizeQuantity(quantity, spec, referencePrice, notional), quantity, spec,
                          referencePrice, notional))
            <==> PrecisionFits(spec, referencePrice, notional)
  {
    if PrecisionFits(spec, referencePrice, notional) {
      forall quantity: real | quantity > 0.0
        ensures IsBybitLot(BybitNormalizeQuantity(quantity, spec, referencePrice, notional), quantity, spec,
                           referencePrice, notional)
      {
        BybitReturnsTheLotIff(quantity, spec, referencePrice, notional);
        if HasRoom(spec, referencePrice) {
          ResolvedOnGrid(quantity, spec, referencePrice, notional);
        } else {
          WithoutRoom(quantity, spec, referencePrice, notional);
        }
      }
    } else {
      var quantity := MissedRequest(spec, referencePrice, notional);
      BybitReturnsTheLotIff(quantity, spec, referencePrice, notional);
    }
  }

  /** Where the precision does not fit, a request that does not get its lot. */
  lemma MissedRequest(spec: InstrumentSpec, referencePrice: real, notional: real) returns (quantity: real)
    requires spec.qtyStep > 0.0 && !PrecisionFits(spec, referencePrice, notional)
    ensures quantity > 0.0
    ensures !OnGrid(BybitResolve(quantity, spec, referencePrice, notional), PrecisionUnit(spec.basePrecision))
  {
    var step, unit := spec.qtyStep, PrecisionUnit(spec.basePrecision);
    var k := FirstLot(BybitMinimum(spec, referencePrice), step);
    var a, b := Multiple(k, step), Multiple(k + 1, step);
    if HasRoom(spec, referencePrice) {
      if BybitCap(spec) > 0.0 {
        WithinCap(b, BybitCap(spec), step);
      }
      LotResolvesToItself(k, spec, referencePrice, notional);
      LotResolvesToItself(k + 1, spec, referencePrice, notional);
      quantity := if OnGrid(a, unit) then b else a;
      if OnGrid(a, unit) && OnGrid(b, unit) {
        GridDifference(a, b, unit);
      }
    } else {
      WithoutRoom(a, spec, referencePrice, notional);
      WithoutRoom(step / 2.0, spec, referencePrice, notional);
      TinyRequest(spec, referencePrice);
      LotIsItsOwnFloor(k, step);
      quantity := if OnGrid(StepFloor(BybitCap(spec), step), unit) then step / 2.0 else a;
    }
  }

  /** A precision that does not fit: the adapter returns nothing at all, below the minimum of 0.2. */
  lemma BybitRoundsBelowMinimum()
    ensures var spec := InstrumentSpec(0.1, 0.2, 0.0, 0.0, 0.0, 0);
            && BybitNormalizeQuantity(0.3, spec, 100.0, 30.0) == 0.0
            && BybitMinimum(spec, 100.0) == 0.2
            && !IsBybitLot(BybitNormalizeQuantity(0.3, spec, 100.0, 30.0), 0.3, spec, 100.0, 30.0)
  {
    var spec := InstrumentSpec(0.1, 0.2, 0.0, 0.0, 0.0, 0);
    assert 0.3 == Multiple(3, 0.1);
    LotResolvesToItself(3, spec, 100.0, 30.0);
    assert BybitResolve(0.3, spec, 100.0, 30.0) == 0.3;
    assert RoundTo(0.3, 1.0) == 0.0;
    BybitResolveIsTheLot(0.0, 0.3, spec, 100.0, 30.0);
  }

  /** Another: a request for 0.6 that fits the cap is raised to the cap itself. */
  lemma BybitRoundsUpToCap()
    ensures var spec := InstrumentSpec(0.1, 0.6, 1.0, 0.0, 0.0, 0);
            && BybitNormalizeQuantity(0.6, spec, 100.0, 0.0) == 1.0 == BybitCap(spec)
            && IsBybitLot(0.6, 0.6, spec, 100.0, 0.0)
            && !IsBybitLot(1.0, 0.6, spec, 100.0, 0.0)
  {
    var spec := InstrumentSpec(0.1, 0.6, 1.0, 0.0, 0.0, 0);
    assert 0.6 == Multiple(6, 0.1) && 1.0 == Multiple(10, 0.1);
    LotIsItsOwnFloor(10, 0.1);
    LotResolvesToItself(6, spec, 100.0, 0.0);
    assert BybitResolve(0.6, spec, 100.0, 0.0) == 0.6;
    assert RoundTo(0.6, 1.0) == 1.0;
    BybitResolveIsTheLot(0.6, 0.6, spec, 100.0, 0.0);
    BybitResolveIsTheLot(1.0, 0.6, spec, 100.0, 0.0);
  }

  /** Without a step the request is lifted to the minimum, held to the cap, and rounded; a
      minimum or cap on the precision grid survives the rounding. */
  lemma BybitWithoutStep(quantity: real, spec: InstrumentSpec, referencePrice: real, notional: real)
    requires spec.qtyStep <= 0.0 && quantity > 0.0
    ensures var r := BybitNormalizeQuantity(quantity, spec, referencePrice, notional);
            var unit := PrecisionUnit(spec.basePrecision);
            var minimum, cap := BybitMinimum(spec, referencePrice), BybitCap(spec);
            var wanted := MaxReal(quantity, minimum);
            && OnGrid(r, unit)
            && (cap <= 0.0 || wanted <= cap ==> wanted - unit / 2.0 <= r <= wanted + unit / 2.0)
            && (0.0 < cap < wanted ==> cap - unit / 2.0 <= r <= cap + unit / 2.0)
            && (OnGrid(cap, unit) && cap > 0.0 ==> r <= cap)
            && (OnGrid(minimum, unit) && (cap <= 0.0 || minimum <= cap) ==> r >= minimum)
  {
    var unit := PrecisionUnit(spec.basePrecision);
    var resolved := BybitResolve(quantity, spec, referencePrice, notional);
    RoundToNearest(resolved, unit);
    if OnGrid(BybitCap(spec), unit) {
      RoundToKeepsBound(resolved, BybitCap(spec), unit);
    }
    if OnGrid(BybitMinimum(spec, referencePrice), unit) {
      RoundToKeepsBound(resolved, BybitMinimum(spec, referencePrice), unit);
    }
  }

  /** The quantity as text: at least two decimals, and eight where the precision is zero. */
  function BybitText(quantity: real, spec: InstrumentSpec): real {
    var digits := if spec.basePrecision == 0 then 8 else spec.basePrecision;
    RoundTo(quantity, PrecisionUnit(if digits >= 2 then digits else 2))
  }

  /** Writing it out changes nothing more. */
  lemma BybitTextIsExact(quantity: real, spec: InstrumentSpec, referencePrice: real, notional: real)
    requires quantity > 0.0
    ensures var r := BybitNormalizeQuantity(quantity, spec, referencePrice, notional);
            BybitText(r, spec) == r
  {
    var digits := if spec.basePrecision == 0 then 8 else spec.basePrecision;
    var shown := if digits >= 2 then digits else 2;
    var unit := PrecisionUnit(spec.basePrecision);
    RoundToNearest(BybitResolve(quantity, spec, referencePrice, notional), unit);
    var k: int :| BybitNormalizeQuantity(quantity, spec, referencePrice, notional) == Multiple(k, unit);
    PrecisionRefines(spec.basePrecision, shown);
    MultipleOnGrid(k, unit, PrecisionUnit(shown));
    RoundToOnGrid(Multiple(k, unit), PrecisionUnit(shown));
  }
}
