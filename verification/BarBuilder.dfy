/** From trade ticks to one-minute bars. The opening trade of a bar is applied twice, once by
    the initialisation and once by the update, with the maker sides exchanged between the
    two; the model keeps that, and the statements below say what holds all the same. */
module BarBuilder {
  import opened Bars
  import opened Basics

  const GAP_THRESHOLD: int := 1000

  datatype EventType = BarOpen | BarUpdate | BarClose

  datatype BarEvent = BarEvent(kind: EventType, bar: Bar)

  predicate ValidTrade(t: Trade) {
    t.price > 0.0 && t.size > 0.0
  }

  // ------------------------------------------------------------ a bar as a function of its trades

  function Opened(start: int, t: Trade): Bar {
    Bar(t.price, t.price, t.price, t.price, t.size, t.price * t.size,
        if t.isBuyerMaker then 0.0 else t.size, if t.isBuyerMaker then t.size else 0.0,
        1, start, start + MINUTE - 1, false, t.seqNo, t.arrivalTime)
  }

  function Updated(b: Bar, t: Trade): Bar {
    b.(high := MaxReal(b.high, t.price), low := MinReal(b.low, t.price), close := t.price,
       volume := b.volume + t.size, quoteVolume := b.quoteVolume + t.price * t.size,
       buyVolume := b.buyVolume + (if t.isBuyerMaker then t.size else 0.0),
       sellVolume := b.sellVolume + (if t.isBuyerMaker then 0.0 else t.size),
       tradeCount := b.tradeCount + 1, seqNo := t.seqNo, arrivalTime := t.arrivalTime)
  }

  function StartOf(t: Trade): int {
    WindowStart(t.timestamp, MINUTE)
  }

  /** The open bar after the trades of one segment. */
  function BarOf(segment: seq<Trade>): Bar
    requires segment != []
  {
    if |segment| == 1 then Updated(Opened(StartOf(segment[0]), segment[0]), segment[0])
    else Updated(BarOf(segment[..|segment| - 1]), segment[|segment| - 1])
  }

  /** The closing form of a segment's bar. */
  function ClosedBar(segment: seq<Trade>): Bar
    requires segment != []
  {
    BarOf(segment).(isComplete := true)
  }

  function SumSizes(ts: seq<Trade>): real {
    if ts == [] then 0.0 else SumSizes(ts[..|ts| - 1]) + ts[|ts| - 1].size
  }

  /** Sizes signed by side: positive where the buyer was the maker. */
  function MakerFlow(ts: seq<Trade>): real {
    if ts == [] then 0.0
    else MakerFlow(ts[..|ts| - 1]) + (var t := ts[|ts| - 1]; if t.isBuyerMaker then t.size else -t.size)
  }

  /** The money traded. */
  function Turnover(ts: seq<Trade>): real {
    if ts == [] then 0.0 else Turnover(ts[..|ts| - 1]) + ValueOf(ts[|ts| - 1])
  }

  function ValueOf(t: Trade): real {
    t.price * t.size
  }

  /** Exact totals of a segment's bar. The opening size is counted twice in the volume and
      cancels out of the imbalance; all other trades carry the update's (exchanged) sides. */
  lemma {:induction false} BarTotals(segment: seq<Trade>)
    requires segment != []
    ensures var b := BarOf(segment);
            && b.volume == SumSizes(segment) + segment[0].size
            && b.tradeCount == |segment| + 1
            && b.seqNo == segment[|segment| - 1].seqNo && b.arrivalTime == segment[|segment| - 1].arrivalTime
            && b.buyVolume + b.sellVolume == b.volume
            && b.buyVolume - b.sellVolume == MakerFlow(segment[1..])
            && b.open == segment[0].price && b.close == segment[|segment| - 1].price
            && b.timestamp == StartOf(segment[0]) && b.closeTime == b.timestamp + MINUTE - 1 && !b.isComplete
            && ClosedBar(segment).isComplete && ClosedBar(segment).(isComplete := false) == b
  {
    var init := segment[..|segment| - 1];
    if |segment| == 1 {
      assert init == [] && segment[1..] == [];
    } else {
      BarTotals(init);
      assert segment[1..][..|segment| - 2] == init[1..];
    }
  }

  lemma UpdateAddsValue(b: Bar, t: Trade)
    ensures Updated(b, t).quoteVolume == b.quoteVolume + ValueOf(t)
    ensures Opened(StartOf(t), t).quoteVolume == ValueOf(t)
  {
  }

  /** The money traded is counted like the volume, the opening trade's twice. */
  lemma {:induction false} BarTurnover(segment: seq<Trade>)
    requires segment != []
    ensures BarOf(segment).quoteVolume == Turnover(segment) + ValueOf(segment[0])
  {
    hide Updated, Opened, ValueOf;
    var init, last := segment[..|segment| - 1], segment[|segment| - 1];
    if |segment| == 1 {
      assert init == [];
      UpdateAddsValue(Opened(StartOf(last), last), last);
    } else {
      BarTurnover(init);
      UpdateAddsValue(BarOf(init), last);
    }
  }

  lemma {:induction false} BarExtremes(segment: seq<Trade>)
    requires segment != []
    ensures var b := BarOf(segment);
            && (forall i :: 0 <= i < |segment| ==> b.low <= segment[i].price <= b.high)
            && (exists i :: 0 <= i < |segment| && segment[i].price == b.high)
            && (exists i :: 0 <= i < |segment| && segment[i].price == b.low)
  {
    if |segment| > 1 {
      var init := segment[..|segment| - 1];
      BarExtremes(init);
      var h :| 0 <= h < |init| && init[h].price == BarOf(init).high;
      var l :| 0 <= l < |init| && init[l].price == BarOf(init).low;
      assert segment[h] == init[h] && segment[l] == init[l];
      forall i | 0 <= i < |segment| ensures BarOf(segment).low <= segment[i].price <= BarOf(segment).high {
        if i < |init| {
          assert init[i] == segment[i];
        }
      }
    } else {
      assert segment[0].price == BarOf(segment).high;
    }
  }

  lemma UpdateIsSane(b: Bar, t: Trade)
    requires Sane(b) && ValidTrade(t)
    ensures Sane(Updated(b, t))
  {
    ValueStaysInRange(b.low, b.high, b.volume, b.quoteVolume, t.price, t.price, t.size, t.price * t.size,
                      MinReal(b.low, t.price), MaxReal(b.high, t.price));
  }

  lemma OpeningIsSane(t: Trade)
    requires ValidTrade(t)
    ensures Sane(Opened(StartOf(t), t))
  {
  }

  predicate SaneEvenClosed(b: Bar) {
    Sane(b) && Sane(b.(isComplete := true))
  }

  /** Whatever the trades, their order and their gaps: the bar they make is sane. */
  lemma {:induction false} BarIsSane(segment: seq<Trade>)
    requires segment != [] && forall i :: 0 <= i < |segment| ==> ValidTrade(segment[i])
    ensures SaneEvenClosed(BarOf(segment))
  {
    var last := segment[|segment| - 1];
    var before := Opened(StartOf(last), last);
    if |segment| == 1 {
      OpeningIsSane(last);
    } else {
      before := BarOf(segment[..|segment| - 1]);
      BarIsSane(segment[..|segment| - 1]);
    }
    UpdateIsSane(before, last);
    ClosingIsSane(BarOf(segment));
  }

  lemma ClosingIsSane(b: Bar)
    requires Sane(b)
    ensures SaneEvenClosed(b)
  {
  }

  // ------------------------------------------------------------ how trades are cut into segments

  /** The trades fed so far: one closed segment per bar closed, and the open segment. */
  datatype Ledger = Ledger(closed: seq<seq<Trade>>, open: seq<Trade>, last: int)

  const EMPTY: Ledger := Ledger([], [], 0)

  /** A trade more than a second after the previous one, when the builder resets on gaps.
      The time of the previous trade counts as unknown while it is zero. */
  predicate AfterGap(last: int, t: Trade, resetOnGap: bool) {
    resetOnGap && last != 0 && t.timestamp - last > GAP_THRESHOLD
  }

  predicate Cuts(l: Ledger, t: Trade, resetOnGap: bool) {
    l.open != [] && (AfterGap(l.last, t, resetOnGap) || StartOf(l.open[0]) != StartOf(t))
  }

  function Feed(l: Ledger, t: Trade, resetOnGap: bool): Ledger {
    if Cuts(l, t, resetOnGap) then Ledger(l.closed + [l.open], [t], t.timestamp)
    else Ledger(l.closed, l.open + [t], t.timestamp)
  }

  function FeedAll(trades: seq<Trade>, resetOnGap: bool): Ledger {
    if trades == [] then EMPTY
    else Feed(FeedAll(trades[..|trades| - 1], resetOnGap), trades[|trades| - 1], resetOnGap)
  }

  function Flatten(segments: seq<seq<Trade>>): seq<Trade> {
    if segments == [] then [] else Flatten(segments[..|segments| - 1]) + segments[|segments| - 1]
  }

  /** More than a second between two trades, where that resets and the first has a time. */
  predicate IsGap(a: Trade, b: Trade, resetOnGap: bool) {
    resetOnGap && a.timestamp != 0 && b.timestamp > a.timestamp + 1000
  }

  /** One minute only, and no gap inside. */
  predicate IsSegment(s: seq<Trade>, resetOnGap: bool) {
    && s != []
    && (forall i :: 0 <= i < |s| ==> StartOf(s[i]) == StartOf(s[0]))
    && (forall i :: 0 < i < |s| ==> !IsGap(s[i - 1], s[i], resetOnGap))
  }

  /** Neighbouring segments could not have been one. */
  predicate MustCut(a: seq<Trade>, b: seq<Trade>, resetOnGap: bool) {
    a != [] && b != [] &&
    (StartOf(a[0]) != StartOf(b[0]) || IsGap(a[|a| - 1], b[0], resetOnGap))
  }

  /** All segments, the open one last. */
  function Segments(l: Ledger): seq<seq<Trade>> {
    if l.open == [] then l.closed else l.closed + [l.open]
  }

  ghost predicate ProperCuts(segments: seq<seq<Trade>>, resetOnGap: bool) {
    && (forall i :: 0 <= i < |segments| ==> IsSegment(segments[i], resetOnGap))
    && (forall i :: 0 < i < |segments| ==> MustCut(segments[i - 1], segments[i], resetOnGap))
  }

  /** Every trade is in exactly one segment, in order, and the cuts are where they must be. */
  ghost predicate IsSegmentation(l: Ledger, trades: seq<Trade>, resetOnGap: bool) {
    && Flatten(l.closed) + l.open == trades
    && (l.open == [] ==> l == EMPTY)
    && (l.open != [] ==> l.last == l.open[|l.open| - 1].timestamp)
    && ProperCuts(Segments(l), resetOnGap)
  }

  lemma {:induction false} FeedAllSegments(trades: seq<Trade>, resetOnGap: bool)
    ensures IsSegmentation(FeedAll(trades, resetOnGap), trades, resetOnGap)
  {
    if trades != [] {
      var init, t := trades[..|trades| - 1], trades[|trades| - 1];
      FeedAllSegments(init, resetOnGap);
      FeedSegments(FeedAll(init, resetOnGap), init, t, resetOnGap);
      assert trades == init + [t];
    }
  }

  lemma FeedSegments(l: Ledger, trades: seq<Trade>, t: Trade, resetOnGap: bool)
    requires IsSegmentation(l, trades, resetOnGap)
    ensures IsSegmentation(Feed(l, t, resetOnGap), trades + [t], resetOnGap)
  {
    if Cuts(l, t, resetOnGap) {
      CutSegments(l, trades, t, resetOnGap);
    } else {
      GrowSegments(l, trades, t, resetOnGap);
    }
  }

  lemma CutSegments(l: Ledger, trades: seq<Trade>, t: Trade, resetOnGap: bool)
    requires IsSegmentation(l, trades, resetOnGap) && Cuts(l, t, resetOnGap)
    ensures IsSegmentation(Feed(l, t, resetOnGap), trades + [t], resetOnGap)
  {
    var next := Feed(l, t, resetOnGap);
    assert next.closed[..|l.closed|] == l.closed;
    assert Flatten(next.closed) == Flatten(l.closed) + l.open;
    CutIsProper(Segments(l), t, resetOnGap);
  }

  lemma GrowSegments(l: Ledger, trades: seq<Trade>, t: Trade, resetOnGap: bool)
    requires IsSegmentation(l, trades, resetOnGap) && !Cuts(l, t, resetOnGap)
    ensures IsSegmentation(Feed(l, t, resetOnGap), trades + [t], resetOnGap)
  {
    assert Flatten(l.closed) + (l.open + [t]) == (Flatten(l.closed) + l.open) + [t];
    if l.open != [] {
      GrowthIsProper(l.closed, l.open, t, resetOnGap);
    } else {
      var next := Feed(l, t, resetOnGap);
      assert next.open == [t] && Segments(next) == [[t]];
      LoneTrade(t, resetOnGap);
    }
  }

  lemma LoneTrade(t: Trade, resetOnGap: bool)
    ensures ProperCuts([[t]], resetOnGap)
  {
  }

  lemma CutIsProper(segments: seq<seq<Trade>>, t: Trade, resetOnGap: bool)
    requires ProperCuts(segments, resetOnGap) && segments != []
    requires MustCut(segments[|segments| - 1], [t], resetOnGap)
    ensures ProperCuts(segments + [[t]], resetOnGap)
  {
  }

  lemma GrowthIsProper(closed: seq<seq<Trade>>, open: seq<Trade>, t: Trade, resetOnGap: bool)
    requires ProperCuts(closed + [open], resetOnGap) && open != []
    requires StartOf(t) == StartOf(open[0]) && !AfterGap(open[|open| - 1].timestamp, t, resetOnGap)
    ensures ProperCuts(closed + [open + [t]], resetOnGap)
  {
    var before, after := closed + [open], closed + [open + [t]];
    assert before[|closed|] == open;
    assert IsSegment(open + [t], resetOnGap);
    forall i | 0 < i < |after| ensures MustCut(after[i - 1], after[i], resetOnGap) {
      assert MustCut(before[i - 1], before[i], resetOnGap);
      assert after[i - 1] == before[i - 1] && after[i][0] == before[i][0];
    }
    forall i | 0 <= i < |after| ensures IsSegment(after[i], resetOnGap) {
      assert IsSegment(before[i], resetOnGap);
    }
  }

  /** Volume is conserved up to the doubled openings: closed and open bars together carry
      every size once, and each segment's first size once more. */
  function BarVolumes(segments: seq<seq<Trade>>): real
    requires forall i :: 0 <= i < |segments| ==> segments[i] != []
  {
    if segments == [] then 0.0
    else BarVolumes(segments[..|segments| - 1]) + ClosedBar(segments[|segments| - 1]).volume
  }

  function OpeningSizes(segments: seq<seq<Trade>>): real
    requires forall i :: 0 <= i < |segments| ==> segments[i] != []
  {
    if segments == [] then 0.0
    else OpeningSizes(segments[..|segments| - 1]) + segments[|segments| - 1][0].size
  }

  lemma {:induction false} SumSizesConcat(a: seq<Trade>, b: seq<Trade>)
    ensures SumSizes(a + b) == SumSizes(a) + SumSizes(b)
  {
    if b == [] {
      assert a + b == a;
    } else {
      assert (a + b)[..|a + b| - 1] == a + b[..|b| - 1];
      SumSizesConcat(a, b[..|b| - 1]);
    }
  }

  lemma {:induction false} VolumeConserved(segments: seq<seq<Trade>>)
    requires forall i :: 0 <= i < |segments| ==> segments[i] != []
    ensures BarVolumes(segments) == SumSizes(Flatten(segments)) + OpeningSizes(segments)
  {
    if segments != [] {
      var init, last := segments[..|segments| - 1], segments[|segments| - 1];
      VolumeConserved(init);
      BarTotals(last);
      SumSizesConcat(Flatten(init), last);
    }
  }

  // ------------------------------------------------------------ the builder

  /** The open bar after one more trade: fresh after a cut (or at the start), updated otherwise. */
  lemma OpenBarStep(l: Ledger, t: Trade, resetOnGap: bool)
    ensures var next := Feed(l, t, resetOnGap).open;
            && next != []
            && BarOf(next) == Updated(if Cuts(l, t, resetOnGap) || l.open == [] then Opened(StartOf(t), t)
                                      else BarOf(l.open), t)
            && BarOf(next).timestamp == StartOf(next[0])
            && (|next| == 1 <==> Cuts(l, t, resetOnGap) || l.open == [])
  {
    BarTotals(Feed(l, t, resetOnGap).open);
    assert (l.open + [t])[..|l.open|] == l.open;
  }

  /** What one trade makes the builder emit. */
  function Emitted(l: Ledger, t: Trade, resetOnGap: bool): seq<BarEvent> {
    var next := Feed(l, t, resetOnGap);
    (if Cuts(l, t, resetOnGap) then [BarEvent(BarClose, ClosedBar(l.open))] else []) +
    (if |next.open| == 1 then [BarEvent(BarOpen, Opened(StartOf(t), t))] else []) +
    [BarEvent(BarUpdate, BarOf(next.open))]
  }

  class BarBuilder {
    const resetOnGap: bool
    var currentBar: Option<Bar>
    var lastBarTime: int
    var barBuffer: map<int, Bar>
    var events: seq<BarEvent>
    ghost var ledger: Ledger

    ghost predicate Valid()
      reads this
    {
      && lastBarTime == ledger.last
      && currentBar == (if ledger.open == [] then None else Some(BarOf(ledger.open)))
      && (currentBar.Some? ==> currentBar.value.timestamp == StartOf(ledger.open[0]))
    }

    constructor (resetOnGap: bool)
      ensures Valid() && ledger == EMPTY && events == [] && barBuffer == map[] && this.resetOnGap == resetOnGap
    {
      this.resetOnGap := resetOnGap;
      currentBar, lastBarTime, barBuffer, events, ledger := None, 0, map[], [], EMPTY;
    }

    /** Continue the bar, or close it and open the next: on a gap, on a new minute. */
    method OnTrade(t: Trade)
      requires Valid()
      modifies this
      ensures Valid() && ledger == Feed(old(ledger), t, resetOnGap)
      ensures events == old(events) + Emitted(old(ledger), t, resetOnGap)
      ensures barBuffer == if Cuts(old(ledger), t, resetOnGap)
                           then old(barBuffer)[StartOf(old(ledger).open[0]) := ClosedBar(old(ledger).open)]
                           else old(barBuffer)
    {
      OpenBarStep(ledger, t, resetOnGap);
      if resetOnGap && lastBarTime != 0 && t.timestamp - lastBarTime > GAP_THRESHOLD {
        FinalizePreviousBar();
      }
      var barStart := StartOf(t);
      if currentBar.Some? && currentBar.value.timestamp != barStart {
        FinalizePreviousBar();
        InitializeNewBar(barStart, t);
      }
      if currentBar.None? {
        InitializeNewBar(barStart, t);
      }
      currentBar := Some(Updated(currentBar.value, t));
      lastBarTime := t.timestamp;
      events := events + [BarEvent(BarUpdate, currentBar.value)];
      ledger := Feed(ledger, t, resetOnGap);
    }

    method InitializeNewBar(start: int, t: Trade)
      requires start == StartOf(t)
      modifies this`currentBar, this`events
      ensures currentBar == Some(Opened(start, t))
      ensures events == old(events) + [BarEvent(BarOpen, Opened(start, t))]
    {
      currentBar := Some(Opened(start, t));
      events := events + [BarEvent(BarOpen, currentBar.value)];
    }

    method FinalizePreviousBar()
      modifies this`currentBar, this`events, this`barBuffer
      ensures currentBar == None
      ensures old(currentBar).None? ==> events == old(events) && barBuffer == old(barBuffer)
      ensures old(currentBar).Some? ==>
                var bar := old(currentBar).value.(isComplete := true);
                && events == old(events) + [BarEvent(BarClose, bar)]
                && barBuffer == old(barBuffer)[bar.timestamp := bar]
    {
      if currentBar.None? {
        return;
      }
      var bar := currentBar.value.(isComplete := true);
      barBuffer := barBuffer[bar.timestamp := bar];
      events := events + [BarEvent(BarClose, bar)];
      currentBar := None;
    }
  }
}
