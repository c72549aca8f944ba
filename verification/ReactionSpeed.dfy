/** How fast the market follows up on a price jump: detecting jumps between consecutive
    trades, and measuring the furthest continuation within ten seconds of each. Times are
    whole microseconds. */
module ReactionSpeed {
  import opened Basics
  import opened Grid

  const SECOND: int := 1000000
  const MOVE_THRESHOLD_BPS: real := 5.0
  const REACTION_WINDOW: int := 10 * SECOND
  const EVENT_COOLDOWN: int := 5 * SECOND

  datatype Trade = Trade(at: int, price: real)

  datatype Event = Event(at: int, price: real, up: bool, triggerBps: real)

  datatype Reaction = Reaction(bps: real, time: int)

  datatype Speed = Fast | Medium | Slow

  /** The query orders trades by time. */
  predicate Sorted(ts: seq<Trade>) {
    forall i, j :: 0 <= i < j < |ts| ==> ts[i].at <= ts[j].at
  }

  function Bps(before: real, after: real): real {
    if before <= 0.0 then 0.0 else (after - before) / before * 10000.0
  }

  // ------------------------------------------------------------ detection

  /** Trade `i` moves the price by five basis points or more, up or down, against its
      predecessor's (which is positive). */
  predicate IsMove(ts: seq<Trade>, i: int)
    requires 0 < i < |ts|
  {
    var before, after := ts[i - 1].price, ts[i].price;
    before > 0.0 && ((after - before) * 10000.0 >= 5.0 * before || (before - after) * 10000.0 >= 5.0 * before)
  }

  /** `bps` is the change from `before` to `after` in basis points of `before`; none to speak of
      where that is not positive. */
  ghost predicate IsChange(bps: real, before: real, after: real) {
    if before > 0.0 then bps * before == (after - before) * 10000.0 else bps == 0.0
  }

  /** What is reported of trade `i`: up exactly if its price exceeds its predecessor's. */
  ghost predicate IsEventAt(e: Event, ts: seq<Trade>, i: int)
    requires 0 < i < |ts|
  {
    && e.at == ts[i].at && e.price == ts[i].price
    && (e.up <==> ts[i - 1].price > 0.0 && ts[i].price > ts[i - 1].price)
    && IsChange(e.triggerBps, ts[i - 1].price, ts[i].price)
  }

  lemma BpsIsTheChange(bps: real, before: real, after: real)
    ensures IsChange(bps, before, after) <==> bps == Bps(before, after)
  {
    if before > 0.0 {
      DivThenTimes(after - before, before);
      var q := (after - before) / before;
      assert q * 10000.0 * before == q * before * 10000.0;
      ScaledOrder(bps, q * 10000.0, 0.0, before, bps * before, q * 10000.0 * before, 0.0);
    }
  }

  lemma BpsHasSign(before: real, after: real)
    ensures Bps(before, after) > 0.0 <==> before > 0.0 && after > before
    ensures AbsReal(Bps(before, after)) >= MOVE_THRESHOLD_BPS
            <==> before > 0.0
                 && ((after - before) * 10000.0 >= 5.0 * before || (before - after) * 10000.0 >= 5.0 * before)
  {
    if before > 0.0 {
      var bps := Bps(before, after);
      BpsIsTheChange(bps, before, after);
      ProductSign(bps, before);
      ScaledOrder(bps, 5.0, 0.0, before, bps * before, 5.0 * before, 0.0);
      ScaledOrder(bps, -5.0, 0.0, before, bps * before, -5.0 * before, 0.0);
    }
  }

  /** The event the scan reports for trade `i`. */
  function EventAt(ts: seq<Trade>, i: int): (e: Event)
    requires 0 < i < |ts|
    ensures IsEventAt(e, ts, i)
  {
    var move := Bps(ts[i - 1].price, ts[i].price);
    BpsIsTheChange(move, ts[i - 1].price, ts[i].price);
    BpsHasSign(ts[i - 1].price, ts[i].price);
    Event(ts[i].at, ts[i].price, move > 0.0, move)
  }

  lemma EventsAlike(a: Event, b: Event, ts: seq<Trade>, i: int)
    requires 0 < i < |ts| && IsEventAt(a, ts, i) && IsEventAt(b, ts, i)
    ensures a == b
  {
    BpsIsTheChange(a.triggerBps, ts[i - 1].price, ts[i].price);
    BpsIsTheChange(b.triggerBps, ts[i - 1].price, ts[i].price);
  }

  /** Position `fired` accounts for the move at `i`: it is that move, or suppressed it within
      the five seconds after it. */
  predicate Explains(ts: seq<Trade>, fired: int, i: int)
    requires 0 <= i < |ts|
  {
    fired == i || (0 <= fired < i && ts[fired].at <= ts[i].at < ts[fired].at + 5000000)
  }

  ghost predicate IsExplained(ts: seq<Trade>, at: seq<int>, i: int)
    requires 0 <= i < |ts|
  {
    exists k :: 0 <= k < |at| && Explains(ts, at[k], i)
  }

  predicate InRange(at: seq<int>, n: int) {
    forall k :: 0 <= k < |at| ==> 0 < at[k] < n
  }

  predicate Apart(ts: seq<Trade>, at: seq<int>)
    requires InRange(at, |ts|)
  {
    forall k :: 0 < k < |at| ==> at[k - 1] < at[k] && ts[at[k - 1]].at + 5000000 <= ts[at[k]].at
  }

  /** Which of the moves fire: some of them, in order and a cooldown apart, such that every
      other move falls within the cooldown after one that did. */
  ghost predicate IsThinning(ts: seq<Trade>, move: int -> bool, n: int, at: seq<int>)
    requires 0 <= n <= |ts|
  {
    InRange(at, n) && Apart(ts, at) && AllMoves(move, at) && AllExplained(ts, move, n, at)
  }

  ghost predicate AllMoves(move: int -> bool, at: seq<int>) {
    forall k :: 0 <= k < |at| ==> move(at[k])
  }

  ghost predicate AllExplained(ts: seq<Trade>, move: int -> bool, n: int, at: seq<int>)
    requires 0 <= n <= |ts|
  {
    forall i {:trigger IsExplained(ts, at, i)} :: 0 < i < n && move(i) ==> IsExplained(ts, at, i)
  }

  /** `events` are the trades at the positions `at`. */
  ghost predicate AreEvents(ts: seq<Trade>, events: seq<Event>, at: seq<int>) {
    |events| == |at| && forall k :: 0 <= k < |at| ==> 0 < at[k] < |ts| && IsEventAt(events[k], ts, at[k])
  }

  function Moves(ts: seq<Trade>): int -> bool {
    (i: int) => 0 < i < |ts| && IsMove(ts, i)
  }

  lemma FiredStep(ts: seq<Trade>, move: int -> bool, i: int, at: seq<int>)
    requires 0 < i < |ts| && IsThinning(ts, move, i, at) && move(i)
    requires at == [] || ts[i].at - ts[at[|at| - 1]].at >= EVENT_COOLDOWN
    ensures IsThinning(ts, move, i + 1, at + [i])
  {
    FiredExplains(ts, move, i, at);
    assert Apart(ts, at + [i]);
  }

  lemma FiredExplains(ts: seq<Trade>, move: int -> bool, i: int, at: seq<int>)
    requires 0 < i < |ts| && AllExplained(ts, move, i, at)
    ensures AllExplained(ts, move, i + 1, at + [i])
  {
    var more := at + [i];
    assert more[|at|] == i && Explains(ts, more[|at|], i);
    forall u | 0 < u < i + 1 && move(u) ensures IsExplained(ts, more, u) {
      if u < i {
        assert IsExplained(ts, at, u);
        var k :| 0 <= k < |at| && Explains(ts, at[k], u);
        assert Explains(ts, more[k], u);
      }
    }
  }

  /** Neighbours apart means all apart. */
  lemma {:induction false} EventsApart(ts: seq<Trade>, at: seq<int>, j: nat, k: nat)
    requires InRange(at, |ts|) && Apart(ts, at) && j < k < |at|
    ensures at[j] < at[k] && ts[at[j]].at + EVENT_COOLDOWN <= ts[at[k]].at
    decreases k
  {
    if j < k - 1 {
      EventsApart(ts, at, j, k - 1);
    }
  }

  lemma SuppressedStep(ts: seq<Trade>, move: int -> bool, i: int, at: seq<int>)
    requires Sorted(ts) && 0 < i < |ts| && IsThinning(ts, move, i, at)
    requires move(i) ==> at != [] && ts[i].at - ts[at[|at| - 1]].at < EVENT_COOLDOWN
    ensures IsThinning(ts, move, i + 1, at)
  {
    if move(i) {
      assert Explains(ts, at[|at| - 1], i);
    }
  }

  /** Detection over the first `n` trades. */
  ghost predicate IsDetection(ts: seq<Trade>, n: int, events: seq<Event>, at: seq<int>)
    requires 0 <= n <= |ts|
  {
    IsThinning(ts, Moves(ts), n, at) && AreEvents(ts, events, at)
  }

  function LastTime(events: seq<Event>): Option<int> {
    if events == [] then None else Some(events[|events| - 1].at)
  }

  predicate Cooled(last: Option<int>, now: int) {
    last.None? || now - last.value >= EVENT_COOLDOWN
  }

  lemma DetectionStep(ts: seq<Trade>, i: int, events: seq<Event>, at: seq<int>)
    requires Sorted(ts) && 0 < i < |ts| && IsDetection(ts, i, events, at)
    ensures if IsMove(ts, i) && Cooled(LastTime(events), ts[i].at)
            then IsDetection(ts, i + 1, events + [EventAt(ts, i)], at + [i])
            else IsDetection(ts, i + 1, events, at)
  {
    if at != [] {
      assert IsEventAt(events[|at| - 1], ts, at[|at| - 1]);
    }
    if IsMove(ts, i) && Cooled(LastTime(events), ts[i].at) {
      FiredStep(ts, Moves(ts), i, at);
    } else {
      SuppressedStep(ts, Moves(ts), i, at);
    }
  }

  /** Where `a` fires, `b` has fired by then, if they agree so far. */
  lemma FiresByThen(ts: seq<Trade>, move: int -> bool, n: int, a: seq<int>, b: seq<int>, k: nat)
    requires 0 <= n <= |ts| && IsThinning(ts, move, n, a) && IsThinning(ts, move, n, b)
    requires k < |a| && k <= |b| && forall j :: 0 <= j < k ==> a[j] == b[j]
    ensures k < |b| && b[k] <= a[k]
  {
    assert move(a[k]) && IsExplained(ts, b, a[k]);
    var m :| 0 <= m < |b| && Explains(ts, b[m], a[k]);
    if m < k {
      EventsApart(ts, a, m, k);
    } else if m > k {
      EventsApart(ts, b, k, m);
    }
  }

  lemma {:induction false} ThinningIsUnique(ts: seq<Trade>, move: int -> bool, n: int, a: seq<int>, b: seq<int>, k: nat)
    requires 0 <= n <= |ts| && IsThinning(ts, move, n, a) && IsThinning(ts, move, n, b)
    ensures k <= |a| <==> k <= |b|
    ensures k <= |a| ==> a[..k] == b[..k]
  {
    if k > 0 {
      ThinningIsUnique(ts, move, n, a, b, k - 1);
      if k <= |a| || k <= |b| {
        assert forall j :: 0 <= j < k - 1 ==> a[..k - 1][j] == a[j] && b[..k - 1][j] == b[j];
        if k <= |a| {
          FiresByThen(ts, move, n, a, b, k - 1);
        }
        if k <= |b| {
          FiresByThen(ts, move, n, b, a, k - 1);
        }
        assert a[..k] == a[..k - 1] + [a[k - 1]] && b[..k] == b[..k - 1] + [b[k - 1]];
      }
    }
  }

  /** Spacing and explanation leave no choice: a trade list has one right list of events. */
  lemma DetectionIsUnique(ts: seq<Trade>, a: seq<Event>, b: seq<Event>, atA: seq<int>, atB: seq<int>)
    requires IsDetection(ts, |ts|, a, atA) && IsDetection(ts, |ts|, b, atB)
    ensures a == b && atA == atB
  {
    ThinningIsUnique(ts, Moves(ts), |ts|, atA, atB, |atA|);
    ThinningIsUnique(ts, Moves(ts), |ts|, atA, atB, |atA| + 1);
    assert atA == atB;
    forall k | 0 <= k < |a| ensures a[k] == b[k] {
      EventsAlike(a[k], b[k], ts, atA[k]);
    }
  }

  /** The scan over consecutive trades, with a cooldown after each event. */
  method DetectEvents(ts: seq<Trade>) returns (events: seq<Event>)
    requires Sorted(ts)
    ensures exists at :: IsDetection(ts, |ts|, events, at)
  {
    events := [];
    ghost var at: seq<int> := [];
    if |ts| < 2 {
      assert IsDetection(ts, |ts|, events, at);
      return;
    }
    var lastEvent: Option<int> := None;
    var prev := ts[0];
    for i := 1 to |ts|
      invariant prev == ts[i - 1] && lastEvent == LastTime(events)
      invariant IsDetection(ts, i, events, at)
    {
      var cur := ts[i];
      var move := Bps(prev.price, cur.price);
      DetectionStep(ts, i, events, at);
      BpsHasSign(prev.price, cur.price);
      if AbsReal(move) >= MOVE_THRESHOLD_BPS && (lastEvent.None? || cur.at - lastEvent.value >= EVENT_COOLDOWN) {
        events := events + [Event(cur.at, cur.price, move > 0.0, move)];
        at := at + [i];
        lastEvent := Some(cur.at);
      }
      prev := cur;
    }
  }

  /** Detected events, first to last, are a full cooldown apart. */
  lemma DetectedEventsApart(ts: seq<Trade>, events: seq<Event>, at: seq<int>)
    requires IsDetection(ts, |ts|, events, at)
    ensures forall j, k :: 0 <= j < k < |events| ==> events[j].at + EVENT_COOLDOWN <= events[k].at
  {
    forall j, k | 0 <= j < k < |events| ensures events[j].at + EVENT_COOLDOWN <= events[k].at {
      EventsApart(ts, at, j, k);
    }
  }

  // ------------------------------------------------------------ measurement

  predicate Beyond(up: bool, a: real, b: real) {
    if up then a > b else a < b
  }

  /** Trade `i` belongs to the reaction window of the event: the ten seconds after it. */
  predicate InWindow(ts: seq<Trade>, e: Event, i: int)
    requires 0 <= i < |ts|
  {
    e.at < ts[i].at && ts[i].at - e.at <= 10000000
  }

  /** Price `a` continues the event's move past `b`: higher after a rise, lower after a fall. */
  predicate Continues(e: Event, a: real, b: real) {
    (e.up && a > b) || (!e.up && a < b)
  }

  /** Trade `i` is the earliest trade of the window that goes as far beyond the event price
      as any trade of the window does. */
  ghost predicate IsPeak(ts: seq<Trade>, e: Event, i: int) {
    && 0 <= i < |ts| && InWindow(ts, e, i)
    && Continues(e, ts[i].price, e.price)
    && (forall j :: 0 <= j < |ts| && InWindow(ts, e, j) ==> !Continues(e, ts[j].price, ts[i].price))
    && (forall j :: 0 <= j < i && InWindow(ts, e, j) ==> ts[j].price != ts[i].price)
  }

  /** The reaction to that trade: its delay, and how far it went the event's way. */
  ghost predicate IsReactionTo(m: Reaction, e: Event, peak: Trade) {
    m.time == peak.at - e.at && IsChange(if e.up then m.bps else -m.bps, e.price, peak.price)
  }

  lemma ReactionsAlike(a: Reaction, b: Reaction, e: Event, peak: Trade)
    requires IsReactionTo(a, e, peak) && IsReactionTo(b, e, peak)
    ensures a == b
  {
    BpsIsTheChange(if e.up then a.bps else -a.bps, e.price, peak.price);
    BpsIsTheChange(if e.up then b.bps else -b.bps, e.price, peak.price);
  }

  /** What measuring promises, with no mention of where the scan starts. */
  ghost predicate IsMeasurement(ts: seq<Trade>, e: Event, r: Option<Reaction>) {
    match r
    case None => forall i :: 0 <= i < |ts| && InWindow(ts, e, i) ==> !Continues(e, ts[i].price, e.price)
    case Some(m) => exists i :: IsPeak(ts, e, i) && IsReactionTo(m, e, ts[i])
  }

  /** There is one right measurement per event. */
  lemma MeasurementIsUnique(ts: seq<Trade>, e: Event, a: Option<Reaction>, b: Option<Reaction>)
    requires IsMeasurement(ts, e, a) && IsMeasurement(ts, e, b)
    ensures a == b
  {
    if a.Some? {
      var i :| IsPeak(ts, e, i) && IsReactionTo(a.value, e, ts[i]);
      if b.Some? {
        var j :| IsPeak(ts, e, j) && IsReactionTo(b.value, e, ts[j]);
        assert i == j;
        ReactionsAlike(a.value, b.value, e, ts[i]);
      }
    }
  }

  /** A usable hint: no trade before it is later than the event. */
  ghost predicate HintOk(ts: seq<Trade>, e: Event, hint: int) {
    0 <= hint <= |ts| && forall i :: 0 <= i < hint ==> ts[i].at <= e.at
  }

  /** The best price among the window's trades before position `i`, and its first trade. */
  ghost predicate BestSoFar(ts: seq<Trade>, e: Event, i: int, best: real, bestAt: Option<int>, peak: int)
    requires 0 <= i <= |ts|
  {
    && (forall j :: 0 <= j < i && InWindow(ts, e, j) ==> !Continues(e, ts[j].price, best))
    && match bestAt
       case None => best == e.price
       case Some(t) =>
         && 0 <= peak < i && InWindow(ts, e, peak) && ts[peak] == Trade(t, best)
         && Continues(e, best, e.price)
         && forall j :: 0 <= j < peak && InWindow(ts, e, j) ==> ts[j].price != best
  }

  /** Skip to the first trade after the event, then scan the window for the extremum. The new
      hint is the position of that first trade. */
  method MeasureReaction(ts: seq<Trade>, e: Event, hint: int) returns (r: Option<Reaction>, newHint: int)
    requires Sorted(ts) && HintOk(ts, e, hint)
    ensures IsMeasurement(ts, e, r)
    ensures hint <= newHint && HintOk(ts, e, newHint)
    ensures newHint < |ts| ==> ts[newHint].at > e.at
  {
    var windowEnd := e.at + REACTION_WINDOW;
    var i := hint;
    while i < |ts| && ts[i].at <= e.at
      invariant hint <= i && HintOk(ts, e, i)
    {
      i := i + 1;
    }
    newHint := i;
    var best: real, bestAt: Option<int> := e.price, None;
    ghost var peak := 0;
    while i < |ts|
      invariant newHint <= i <= |ts|
      invariant BestSoFar(ts, e, i, best, bestAt, peak)
    {
      if ts[i].at > windowEnd {
        break;
      }
      if Beyond(e.up, ts[i].price, best) {
        best, bestAt, peak := ts[i].price, Some(ts[i].at), i;
      }
      i := i + 1;
    }
    if bestAt.None? {
      return None, newHint;
    }
    var bps := Bps(e.price, best);
    if !e.up {
      bps := -bps;
    }
    r := Some(Reaction(bps, bestAt.value - e.at));
    BpsIsTheChange(Bps(e.price, best), e.price, best);
    assert IsPeak(ts, e, peak) && IsReactionTo(r.value, e, ts[peak]);
  }

  /** The loop over events: the hint of one measurement starts the next. Events before
      `emitSince` are passed over and leave the hint alone. */
  method MeasureAll(ts: seq<Trade>, events: seq<Event>, emitSince: Option<int>) returns (reactions: seq<Option<Reaction>>)
    requires Sorted(ts)
    requires forall j, k :: 0 <= j < k < |events| ==> events[j].at <= events[k].at
    ensures |reactions| == |events|
    ensures forall k :: 0 <= k < |events| ==>
              if emitSince.Some? && events[k].at < emitSince.value then reactions[k] == None
              else IsMeasurement(ts, events[k], reactions[k])
  {
    reactions := [];
    var hint := 0;
    for k := 0 to |events|
      invariant |reactions| == k
      invariant forall j :: k <= j < |events| ==> HintOk(ts, events[j], hint)
      invariant forall j :: 0 <= j < k ==>
                  if emitSince.Some? && events[j].at < emitSince.value then reactions[j] == None
                  else IsMeasurement(ts, events[j], reactions[j])
    {
      if emitSince.Some? && events[k].at < emitSince.value {
        reactions := reactions + [None];
        continue;
      }
      var r;
      r, hint := MeasureReaction(ts, events[k], hint);
      reactions := reactions + [r];
    }
  }

  /** Threading the hint is invisible: each event's reaction is the one a scan from the very
      first trade would have found. */
  method MeasureFromScratch(ts: seq<Trade>, e: Event, threaded: Option<Reaction>) returns (r: Option<Reaction>)
    requires Sorted(ts) && IsMeasurement(ts, e, threaded)
    ensures r == threaded
  {
    var hint;
    r, hint := MeasureReaction(ts, e, 0);
    MeasurementIsUnique(ts, e, r, threaded);
  }

  /** What a run over one trade list finds: each detected event with its own measurement. */
  ghost predicate AreReactions(ts: seq<Trade>, events: seq<Event>, emitSince: Option<int>, reactions: seq<Option<Reaction>>) {
    && (exists at :: IsDetection(ts, |ts|, events, at))
    && |reactions| == |events|
    && forall k :: 0 <= k < |events| ==>
         if emitSince.Some? && events[k].at < emitSince.value then reactions[k] == None
         else IsMeasurement(ts, events[k], reactions[k])
  }

  method DetectAndMeasure(ts: seq<Trade>, emitSince: Option<int>)
    returns (events: seq<Event>, reactions: seq<Option<Reaction>>)
    requires Sorted(ts)
    ensures AreReactions(ts, events, emitSince, reactions)
  {
    events := DetectEvents(ts);
    ghost var at :| IsDetection(ts, |ts|, events, at);
    DetectedEventsApart(ts, events, at);
    reactions := MeasureAll(ts, events, emitSince);
  }

  // ------------------------------------------------------------ classification

  /** Reported milliseconds, rounded to a tenth. */
  function ReportedMs(time: int): real {
    RoundTo(time as real / 1000.0, 0.1)
  }

  function Classify(ms: real): Speed {
    if ms < 100.0 then Fast else if ms < 1000.0 then Medium else Slow
  }

  /** Classes are drawn on the rounded time, so each border sits 50 microseconds early. */
  lemma ClassBorders(time: int)
    ensures Classify(ReportedMs(time)) == Fast <==> time < 99950
    ensures Classify(ReportedMs(time)) == Slow <==> time >= 999950
  {
    var tenths := RoundHalfEven(time as real / 1000.0 / 0.1);
    assert time as real / 1000.0 / 0.1 == time as real / 100.0;
    assert ReportedMs(time) == tenths as real * 0.1;
  }
}
