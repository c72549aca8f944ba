/** The wiring: every bar the builder closes is fed to the timeframe engine. */
module DataPipeline {
  import opened Bars
  import BB = BarBuilder
  import TE = TimeframeEngine

  /** The bars of the closed segments, in the order they closed. */
  function ClosedBars(segments: seq<seq<Trade>>): seq<Bar>
    requires forall i :: 0 <= i < |segments| ==> segments[i] != []
  {
    if segments == [] then []
    else ClosedBars(segments[..|segments| - 1]) + [BB.ClosedBar(segments[|segments| - 1])]
  }

  ghost predicate NonEmpty(segments: seq<seq<Trade>>) {
    forall i :: 0 <= i < |segments| ==> segments[i] != []
  }

  /** The bars that close in a list of events. */
  function ClosesIn(events: seq<BB.BarEvent>): seq<Bar> {
    if events == [] then []
    else
      var last := events[|events| - 1];
      if last.kind == BB.BarClose then ClosesIn(events[..|events| - 1]) + [last.bar]
      else ClosesIn(events[..|events| - 1])
  }

  lemma ClosesSnoc(events: seq<BB.BarEvent>, i: nat)
    requires i < |events|
    ensures ClosesIn(events[..i + 1])
            == if events[i].kind == BB.BarClose then ClosesIn(events[..i]) + [events[i].bar] else ClosesIn(events[..i])
  {
    assert events[..i + 1][..i] == events[..i];
  }

  lemma ClosesOfOne(e: BB.BarEvent)
    ensures ClosesIn([e]) == if e.kind == BB.BarClose then [e.bar] else []
  {
    assert [e][..0] == [];
  }

  lemma ClosesOfTwo(e: BB.BarEvent, f: BB.BarEvent)
    ensures ClosesIn([e, f]) == ClosesIn([e]) + ClosesIn([f])
  {
    ClosesOfOne(e);
    ClosesOfOne(f);
    assert [e, f][..1] == [e];
  }

  /** One trade closes the bar before it, or none. */
  lemma ClosesEmitted(l: BB.Ledger, t: Trade, resetOnGap: bool)
    ensures ClosesIn(BB.Emitted(l, t, resetOnGap))
            == if BB.Cuts(l, t, resetOnGap) then [BB.ClosedBar(l.open)] else []
  {
    var next := BB.Feed(l, t, resetOnGap);
    var open, update := BB.BarEvent(BB.BarOpen, BB.Opened(BB.StartOf(t), t)),
                        BB.BarEvent(BB.BarUpdate, BB.BarOf(next.open));
    ClosesOfOne(update);
    ClosesOfTwo(open, update);
    if BB.Cuts(l, t, resetOnGap) {
      var close := BB.BarEvent(BB.BarClose, BB.ClosedBar(l.open));
      assert BB.Emitted(l, t, resetOnGap) == [close, open, update];
      assert [close, open, update][..2] == [close, open];
      ClosesOfTwo(close, open);
      ClosesOfOne(close);
      ClosesOfOne(open);
    } else {
      assert BB.Emitted(l, t, resetOnGap) == if |next.open| == 1 then [open, update] else [update];
      ClosesOfOne(open);
    }
  }

  class DataPipeline {
    const builder: BB.BarBuilder
    const engine: TE.TimeframeEngine

    ghost predicate Valid()
      reads this, builder, engine
    {
      && builder.Valid() && engine.Valid()
      && NonEmpty(builder.ledger.closed)
      && engine.fed == ClosedBars(builder.ledger.closed)
    }

    constructor (resetOnGap: bool, timeframes: seq<TE.Positive>)
      requires forall i, j :: 0 <= i < j < |timeframes| ==> timeframes[i] != timeframes[j]
      ensures Valid() && fresh(builder) && fresh(engine)
      ensures builder.ledger == BB.EMPTY && builder.resetOnGap == resetOnGap && engine.timeframes == timeframes
    {
      builder := new BB.BarBuilder(resetOnGap);
      engine := new TE.TimeframeEngine(timeframes);
    }

    /** One trade through the pipeline. */
    method OnTrade(t: Trade)
      requires Valid()
      modifies builder, engine
      ensures Valid() && builder.ledger == BB.Feed(old(builder.ledger), t, builder.resetOnGap)
    {
      hide BB.Feed, BB.Emitted, BB.Cuts, BB.ClosedBar, ClosedBars;
      var n := |builder.events|;
      ghost var before := builder.ledger;
      builder.OnTrade(t);
      var emitted := builder.events[n..];
      assert emitted == BB.Emitted(before, t, builder.resetOnGap);
      for i := 0 to |emitted|
        invariant builder.Valid() && engine.Valid()
        invariant builder.ledger == BB.Feed(before, t, builder.resetOnGap)
        invariant engine.fed == ClosedBars(before.closed) + ClosesIn(emitted[..i])
      {
        ClosesSnoc(emitted, i);
        if emitted[i].kind == BB.BarClose {
          engine.OnBase1mBar(emitted[i].bar);
        }
      }
      assert emitted[..|emitted|] == emitted;
      ClosesEmitted(before, t, builder.resetOnGap);
      FedAfter(before, t, builder.resetOnGap);
    }
  }

  /** The engine's input keeps up with the builder's closed segments. */
  lemma FedAfter(l: BB.Ledger, t: Trade, resetOnGap: bool)
    requires NonEmpty(l.closed)
    ensures var next := BB.Feed(l, t, resetOnGap);
            && NonEmpty(next.closed)
            && ClosedBars(next.closed)
               == ClosedBars(l.closed) + (if BB.Cuts(l, t, resetOnGap) then [BB.ClosedBar(l.open)] else [])
  {
    if BB.Cuts(l, t, resetOnGap) {
      assert (l.closed + [l.open])[..|l.closed|] == l.closed;
    }
  }

  // ------------------------------------------------------------ end to end

  lemma {:induction false} ClosedBarsAt(segments: seq<seq<Trade>>, i: nat)
    requires NonEmpty(segments) && i < |segments|
    ensures |ClosedBars(segments)| == |segments| && ClosedBars(segments)[i] == BB.ClosedBar(segments[i])
  {
    var init := segments[..|segments| - 1];
    if i < |init| {
      ClosedBarsAt(init, i);
    } else if init != [] {
      ClosedBarsAt(init, 0);
    }
  }

  lemma ClosedBarsCount(segments: seq<seq<Trade>>)
    requires NonEmpty(segments)
    ensures |ClosedBars(segments)| == |segments|
  {
    if segments != [] {
      ClosedBarsAt(segments, 0);
    }
  }

  lemma {:induction false} FlattenHas(segments: seq<seq<Trade>>, i: nat, j: nat)
    requires i < |segments| && j < |segments[i]|
    ensures segments[i][j] in BB.Flatten(segments)
  {
    if i < |segments| - 1 {
      FlattenHas(segments[..|segments| - 1], i, j);
    }
  }

  /** For any trades with positive prices and sizes, in any order and with any gaps, every bar
      any timeframe ever emits is sane. */
  lemma PipelineBarsAreSane(trades: seq<Trade>, resetOnGap: bool, m: TE.Positive)
    requires forall t :: t in trades ==> BB.ValidTrade(t)
    ensures var closed := BB.FeedAll(trades, resetOnGap).closed;
            NonEmpty(closed) && TE.SaneLog(TE.Log(ClosedBars(closed), m))
  {
    var closed := BB.FeedAll(trades, resetOnGap).closed;
    ClosedSegments(trades, resetOnGap);
    var bars := ClosedBars(closed);
    ClosedBarsCount(closed);
    forall i | 0 <= i < |closed| ensures Sane(bars[i]) && TE.OnMinute(bars[i].timestamp) {
      ClosedBarsAt(closed, i);
      assert forall j :: 0 <= j < |closed[i]| ==> closed[i][j] in trades;
      SegmentBarIsSane(closed[i]);
    }
    TE.RunIsSane(bars, m);
  }

  lemma SegmentBarIsSane(segment: seq<Trade>)
    requires segment != [] && forall j :: 0 <= j < |segment| ==> BB.ValidTrade(segment[j])
    ensures Sane(BB.ClosedBar(segment)) && TE.OnMinute(BB.ClosedBar(segment).timestamp)
  {
    BB.BarIsSane(segment);
    BB.BarTotals(segment);
  }

  /** The closed segments of a feed, as properly cut pieces of it. */
  lemma ClosedSegments(trades: seq<Trade>, resetOnGap: bool)
    ensures var closed := BB.FeedAll(trades, resetOnGap).closed;
            && NonEmpty(closed) && BB.ProperCuts(closed, resetOnGap)
            && forall i, j :: 0 <= i < |closed| && 0 <= j < |closed[i]| ==> closed[i][j] in trades
  {
    var l := BB.FeedAll(trades, resetOnGap);
    BB.FeedAllSegments(trades, resetOnGap);
    var all := BB.Segments(l);
    assert l.closed == all[..|l.closed|];
    forall i, j | 0 <= i < |l.closed| && 0 <= j < |l.closed[i]| ensures l.closed[i][j] in trades {
      FlattenHas(l.closed, i, j);
    }
    forall i | 0 <= i < |l.closed| ensures BB.IsSegment(l.closed[i], resetOnGap) {
      assert BB.IsSegment(all[i], resetOnGap);
    }
    forall i | 0 < i < |l.closed| ensures BB.MustCut(l.closed[i - 1], l.closed[i], resetOnGap) {
      assert BB.MustCut(all[i - 1], all[i], resetOnGap);
    }
  }

  // ------------------------------------------------------------ volume, trades in time order

  predicate InTime(trades: seq<Trade>) {
    forall i, j :: 0 <= i < j < |trades| ==> trades[i].timestamp <= trades[j].timestamp
  }

  /** Trade `i` ends the bar before it: by opening a new minute, or by a gap. */
  predicate IsCut(trades: seq<Trade>, i: int, resetOnGap: bool) {
    0 < i < |trades| &&
    (BB.StartOf(trades[i - 1]) != BB.StartOf(trades[i])
     || BB.IsGap(trades[i - 1], trades[i], resetOnGap))
  }

  /** Trade `i` ends the bar before it although it belongs to the same minute. */
  predicate IsPause(trades: seq<Trade>, i: int, resetOnGap: bool) {
    0 < i < |trades| && BB.StartOf(trades[i - 1]) == BB.StartOf(trades[i])
    && BB.IsGap(trades[i - 1], trades[i], resetOnGap)
  }

  ghost predicate HasPause(trades: seq<Trade>, resetOnGap: bool) {
    exists i :: IsPause(trades, i, resetOnGap)
  }

  /** A pause inside a minute, and later another cut: two bars of one minute have closed. */
  ghost predicate LosesABar(trades: seq<Trade>, resetOnGap: bool) {
    exists i, j :: i < j && IsPause(trades, i, resetOnGap) && IsCut(trades, j, resetOnGap)
  }

  ghost predicate SharesMinute(segments: seq<seq<Trade>>)
    requires NonEmpty(segments)
  {
    exists i :: 0 < i < |segments| && BB.StartOf(segments[i - 1][0]) == BB.StartOf(segments[i][0])
  }

  lemma PausesGrow(trades: seq<Trade>, t: Trade, resetOnGap: bool)
    ensures var more := trades + [t];
            && (HasPause(more, resetOnGap) <==> HasPause(trades, resetOnGap) || IsPause(more, |trades|, resetOnGap))
            && (LosesABar(more, resetOnGap) <==>
                  LosesABar(trades, resetOnGap)
                  || (HasPause(trades, resetOnGap) && IsCut(more, |trades|, resetOnGap)))
  {
    var more := trades + [t];
    forall i | i < |trades|
      ensures IsPause(more, i, resetOnGap) <==> IsPause(trades, i, resetOnGap)
      ensures IsCut(more, i, resetOnGap) <==> IsCut(trades, i, resetOnGap)
    {
      if 0 < i {
        assert more[i - 1] == trades[i - 1] && more[i] == trades[i];
      }
    }
    if i :| IsPause(trades, i, resetOnGap) {
      assert IsPause(more, i, resetOnGap);
    }
    if i, j :| i < j && IsPause(trades, i, resetOnGap) && IsCut(trades, j, resetOnGap) {
      assert IsPause(more, i, resetOnGap) && IsCut(more, j, resetOnGap);
    }
    if i, j :| i < j && IsPause(more, i, resetOnGap) && IsCut(more, j, resetOnGap) {
      assert IsPause(trades, i, resetOnGap);
    }
  }

  lemma SharingGrows(segments: seq<seq<Trade>>, s: seq<Trade>)
    requires NonEmpty(segments) && s != []
    ensures NonEmpty(segments + [s])
    ensures SharesMinute(segments + [s])
            <==> SharesMinute(segments)
                 || (segments != [] && BB.StartOf(segments[|segments| - 1][0]) == BB.StartOf(s[0]))
  {
    var more := segments + [s];
    if i :| 0 < i < |segments| && BB.StartOf(segments[i - 1][0]) == BB.StartOf(segments[i][0]) {
      assert more[i - 1] == segments[i - 1] && more[i] == segments[i];
    }
    if segments != [] {
      assert more[|segments| - 1] == segments[|segments| - 1] && more[|segments|] == s;
    }
  }

  /** Sharing depends on how segments begin, not on how they end. */
  lemma SharingIgnoresGrowth(closed: seq<seq<Trade>>, open: seq<Trade>, t: Trade)
    requires NonEmpty(closed) && open != []
    ensures NonEmpty(closed + [open]) && NonEmpty(closed + [open + [t]])
    ensures SharesMinute(closed + [open + [t]]) <==> SharesMinute(closed + [open])
  {
    SharingGrows(closed, open);
    SharingGrows(closed, open + [t]);
  }

  lemma SegmentsNonEmpty(l: BB.Ledger, trades: seq<Trade>, resetOnGap: bool)
    requires BB.IsSegmentation(l, trades, resetOnGap)
    ensures NonEmpty(l.closed) && NonEmpty(BB.Segments(l))
    ensures l.open != [] ==> trades != [] && trades[|trades| - 1] == l.open[|l.open| - 1]
                             && BB.StartOf(l.open[0]) == BB.StartOf(trades[|trades| - 1])
    ensures l.open == [] ==> trades == []
  {
    var all := BB.Segments(l);
    forall i | 0 <= i < |all| ensures all[i] != [] {
      assert BB.IsSegment(all[i], resetOnGap);
    }
    assert l.closed == all[..|l.closed|];
    if l.open != [] {
      assert all[|l.closed|] == l.open && BB.IsSegment(l.open, resetOnGap);
    }
  }

  ghost predicate PausesMatch(l: BB.Ledger, trades: seq<Trade>, resetOnGap: bool) {
    && NonEmpty(l.closed) && NonEmpty(BB.Segments(l))
    && (SharesMinute(BB.Segments(l)) <==> HasPause(trades, resetOnGap))
    && (SharesMinute(l.closed) <==> LosesABar(trades, resetOnGap))
  }

  /** Neighbouring segments of one minute come from pauses; closed ones, from pauses that a
      further cut has followed. */
  lemma {:induction false} PausesShareMinutes(trades: seq<Trade>, resetOnGap: bool)
    ensures PausesMatch(BB.FeedAll(trades, resetOnGap), trades, resetOnGap)
  {
    if trades != [] {
      var init, t := trades[..|trades| - 1], trades[|trades| - 1];
      var l := BB.FeedAll(init, resetOnGap);
      PausesShareMinutes(init, resetOnGap);
      BB.FeedAllSegments(init, resetOnGap);
      PausesShareStep(l, init, t, resetOnGap);
      assert init + [t] == trades;
    }
  }

  /** The builder cuts exactly at the cuts; the pauses among them stay in the open minute. */
  lemma CutsAreCuts(l: BB.Ledger, trades: seq<Trade>, t: Trade, resetOnGap: bool)
    requires BB.IsSegmentation(l, trades, resetOnGap) && l.open != []
    ensures BB.Cuts(l, t, resetOnGap) <==> IsCut(trades + [t], |trades|, resetOnGap)
    ensures IsPause(trades + [t], |trades|, resetOnGap)
            <==> BB.Cuts(l, t, resetOnGap) && BB.StartOf(l.open[0]) == BB.StartOf(t)
  {
    SegmentsNonEmpty(l, trades, resetOnGap);
    var more := trades + [t];
    assert more[|trades| - 1] == trades[|trades| - 1] && more[|trades|] == t;
  }

  lemma PausesShareStep(l: BB.Ledger, trades: seq<Trade>, t: Trade, resetOnGap: bool)
    requires BB.IsSegmentation(l, trades, resetOnGap) && PausesMatch(l, trades, resetOnGap)
    ensures PausesMatch(BB.Feed(l, t, resetOnGap), trades + [t], resetOnGap)
  {
    PausesGrow(trades, t, resetOnGap);
    if l.open != [] {
      CutsAreCuts(l, trades, t, resetOnGap);
      if BB.Cuts(l, t, resetOnGap) {
        SharingGrows(BB.Segments(l), [t]);
      } else {
        SharingIgnoresGrowth(l.closed, l.open, t);
      }
    } else {
      SegmentsNonEmpty(l, trades, resetOnGap);
      assert l == BB.EMPTY && [] + [t] == [t];
      assert BB.Segments(BB.Feed(l, t, resetOnGap)) == [[t]];
    }
  }

  /** Of neighbouring segments of one minute, the last. */
  function LastOfMinute(segments: seq<seq<Trade>>): (r: seq<seq<Trade>>)
    requires NonEmpty(segments)
    ensures NonEmpty(r)
  {
    if segments == [] then []
    else
      var before, s := LastOfMinute(segments[..|segments| - 1]), segments[|segments| - 1];
      if before != [] && BB.StartOf(before[|before| - 1][0]) == BB.StartOf(s[0]) then before[..|before| - 1] + [s]
      else before + [s]
  }

  lemma ClosedBarsSnoc(segments: seq<seq<Trade>>, s: seq<Trade>)
    requires NonEmpty(segments) && s != []
    ensures NonEmpty(segments + [s]) && ClosedBars(segments + [s]) == ClosedBars(segments) + [BB.ClosedBar(s)]
    ensures BB.ClosedBar(s).timestamp == BB.StartOf(s[0])
  {
    assert (segments + [s])[..|segments|] == segments;
    BB.BarTotals(s);
  }

  lemma {:induction false} LastBarsOfMinutes(segments: seq<seq<Trade>>)
    requires NonEmpty(segments)
    ensures TE.LastPerMinute(ClosedBars(segments)) == ClosedBars(LastOfMinute(segments))
  {
    if segments != [] {
      var init, s := segments[..|segments| - 1], segments[|segments| - 1];
      assert segments == init + [s];
      LastBarsOfMinutes(init);
      ClosedBarsSnoc(init, s);
      var bars := ClosedBars(init);
      assert (bars + [BB.ClosedBar(s)])[..|bars|] == bars;
      AbsorbSegment(LastOfMinute(init), s);
    }
  }

  lemma AbsorbSegment(before: seq<seq<Trade>>, s: seq<Trade>)
    requires NonEmpty(before) && s != []
    ensures var after := if before != [] && BB.StartOf(before[|before| - 1][0]) == BB.StartOf(s[0])
                         then before[..|before| - 1] + [s] else before + [s];
            NonEmpty(after) && TE.Absorb(ClosedBars(before), BB.ClosedBar(s)) == ClosedBars(after)
  {
    ClosedBarsSnoc(before, s);
    if before != [] {
      var kept := before[..|before| - 1];
      assert before == kept + [before[|before| - 1]];
      ClosedBarsSnoc(kept, before[|before| - 1]);
      ClosedBarsSnoc(kept, s);
      assert (ClosedBars(kept) + [BB.ClosedBar(before[|before| - 1])])[..|ClosedBars(kept)|] == ClosedBars(kept);
    }
  }

  lemma ClosedBarStarts(segments: seq<seq<Trade>>)
    requires NonEmpty(segments)
    ensures |ClosedBars(segments)| == |segments|
    ensures forall i :: 0 <= i < |segments| ==>
              ClosedBars(segments)[i].timestamp == BB.StartOf(segments[i][0])
              && TE.OnMinute(ClosedBars(segments)[i].timestamp)
  {
    ClosedBarsCount(segments);
    forall i | 0 <= i < |segments|
      ensures ClosedBars(segments)[i].timestamp == BB.StartOf(segments[i][0])
              && TE.OnMinute(ClosedBars(segments)[i].timestamp)
    {
      ClosedBarsAt(segments, i);
      BB.BarTotals(segments[i]);
    }
  }

  lemma RepeatsAreShared(segments: seq<seq<Trade>>)
    requires NonEmpty(segments)
    ensures TE.NoRepeats(ClosedBars(segments)) <==> !SharesMinute(segments)
  {
    var bars := ClosedBars(segments);
    ClosedBarStarts(segments);
    if i :| 0 < i < |segments| && BB.StartOf(segments[i - 1][0]) == BB.StartOf(segments[i][0]) {
      assert bars[i - 1].timestamp == bars[i].timestamp;
    }
    if !TE.NoRepeats(bars) {
      var i :| 0 < i < |bars| && bars[i - 1].timestamp == bars[i].timestamp;
      assert BB.StartOf(segments[i - 1][0]) == BB.StartOf(segments[i][0]);
    }
  }

  lemma PositiveVolumes(segments: seq<seq<Trade>>, trades: seq<Trade>)
    requires NonEmpty(segments) && forall t :: t in trades ==> t.size > 0.0
    requires forall i, j :: 0 <= i < |segments| && 0 <= j < |segments[i]| ==> segments[i][j] in trades
    ensures forall i :: 0 <= i < |ClosedBars(segments)| ==> ClosedBars(segments)[i].volume > 0.0
  {
    ClosedBarsCount(segments);
    forall i | 0 <= i < |segments| ensures ClosedBars(segments)[i].volume > 0.0 {
      ClosedBarsAt(segments, i);
      BB.BarTotals(segments[i]);
      SizesArePositive(segments[i]);
      assert segments[i][0] in trades;
    }
  }

  lemma {:induction false} SizesArePositive(s: seq<Trade>)
    requires forall j :: 0 <= j < |s| ==> s[j].size > 0.0
    ensures BB.SumSizes(s) >= 0.0
  {
    if s != [] {
      SizesArePositive(s[..|s| - 1]);
    }
  }

  /** For trades in time order, with or without gap resets, what every timeframe's bars carry:
      of the closed segments, the last of each minute, once each. */
  lemma OrderedTradesTotal(trades: seq<Trade>, resetOnGap: bool, m: TE.Positive)
    requires InTime(trades)
    ensures var closed := BB.FeedAll(trades, resetOnGap).closed;
            && NonEmpty(closed) && NonEmpty(LastOfMinute(closed))
            && TE.NeverBack(ClosedBars(closed))
            && TE.RunFacts(TE.Run(ClosedBars(closed), m), ClosedBars(LastOfMinute(closed)), m)
            && TE.Total(TE.Run(ClosedBars(closed), m))
               == BB.SumSizes(BB.Flatten(LastOfMinute(closed))) + BB.OpeningSizes(LastOfMinute(closed))
  {
    var l := BB.FeedAll(trades, resetOnGap);
    ClosedSegments(trades, resetOnGap);
    BB.FeedAllSegments(trades, resetOnGap);
    SegmentsAscend(l.closed, l.open, trades, resetOnGap);
    TE.RunIsOfLastBars(ClosedBars(l.closed), m);
    TE.LastBarsInOrder(ClosedBars(l.closed));
    LastBarsOfMinutes(l.closed);
    TE.RunInOrder(ClosedBars(LastOfMinute(l.closed)), m);
    ClosedVolumes(LastOfMinute(l.closed));
    BB.VolumeConserved(LastOfMinute(l.closed));
  }

  /** When volume is conserved end to end: trades in time order keep all of it, up to the doubled
      opening sizes, exactly when no pause inside a minute is followed by a further cut. */
  lemma OrderedTradesConserveVolume(trades: seq<Trade>, resetOnGap: bool, m: TE.Positive)
    requires InTime(trades) && forall t :: t in trades ==> t.size > 0.0
    ensures var l := BB.FeedAll(trades, resetOnGap);
            && NonEmpty(l.closed)
            && (TE.Total(TE.Run(ClosedBars(l.closed), m)) == SumVolume(ClosedBars(l.closed))
                <==> !LosesABar(trades, resetOnGap))
            && (TE.Total(TE.Run(ClosedBars(l.closed), m)) + BB.SumSizes(l.open)
                == BB.SumSizes(trades) + BB.OpeningSizes(l.closed)
                <==> !LosesABar(trades, resetOnGap))
            && TE.Total(TE.Run(ClosedBars(l.closed), m)) <= SumVolume(ClosedBars(l.closed))
  {
    var l := BB.FeedAll(trades, resetOnGap);
    ClosedSegments(trades, resetOnGap);
    BB.FeedAllSegments(trades, resetOnGap);
    SegmentsAscend(l.closed, l.open, trades, resetOnGap);
    PositiveVolumes(l.closed, trades);
    TE.RunNeverBack(ClosedBars(l.closed), m);
    TE.RepeatsLoseVolume(ClosedBars(l.closed));
    RepeatsAreShared(l.closed);
    PausesShareMinutes(trades, resetOnGap);
    ClosedVolumes(l.closed);
    BB.VolumeConserved(l.closed);
    BB.SumSizesConcat(BB.Flatten(l.closed), l.open);
  }

  /** Without gap resets no feed in time order ever loses volume. */
  lemma NoResetLosesNothing(trades: seq<Trade>, m: TE.Positive)
    requires InTime(trades) && forall t :: t in trades ==> t.size > 0.0
    ensures var l := BB.FeedAll(trades, false);
            && NonEmpty(l.closed)
            && TE.Total(TE.Run(ClosedBars(l.closed), m)) + BB.SumSizes(l.open)
               == BB.SumSizes(trades) + BB.OpeningSizes(l.closed)
  {
    OrderedTradesConserveVolume(trades, false, m);
  }

  /** With them, as the pipeline is configured, two trades two seconds apart are enough. */
  lemma PauseLosesVolume(m: TE.Positive)
    ensures var trades := [Trade(1.0, 1.0, 60000, false, 0, 0), Trade(1.0, 1.0, 62000, false, 1, 0),
                           Trade(1.0, 1.0, 120000, false, 2, 0)];
            var closed := BB.FeedAll(trades, true).closed;
            && closed == [[trades[0]], [trades[1]]]
            && TE.Total(TE.Run(ClosedBars(closed), m)) < SumVolume(ClosedBars(closed))
  {
    var a, b, c := Trade(1.0, 1.0, 60000, false, 0, 0), Trade(1.0, 1.0, 62000, false, 1, 0),
                   Trade(1.0, 1.0, 120000, false, 2, 0);
    var trades := [a, b, c];
    assert trades[..2] == [a, b] && [a, b][..1] == [a] && [a][..0] == [];
    assert BB.FeedAll([a], true) == BB.Ledger([], [a], 60000);
    assert BB.FeedAll([a, b], true) == BB.Ledger([[a]], [b], 62000);
    assert BB.FeedAll(trades, true) == BB.Ledger([[a], [b]], [c], 120000);
    assert IsPause(trades, 1, true) && IsCut(trades, 2, true);
    OrderedTradesConserveVolume(trades, true, m);
  }

  lemma {:induction false} ClosedVolumes(segments: seq<seq<Trade>>)
    requires NonEmpty(segments)
    ensures SumVolume(ClosedBars(segments)) == BB.BarVolumes(segments)
  {
    if segments != [] {
      ClosedVolumes(segments[..|segments| - 1]);
      var bars := ClosedBars(segments);
      assert bars[..|bars| - 1] == ClosedBars(segments[..|segments| - 1]);
    }
  }

  /** Position of a segment's trades inside the flattened feed. */
  lemma {:induction false} FlattenSplit(segments: seq<seq<Trade>>, i: nat)
    requires i < |segments|
    ensures BB.Flatten(segments[..i]) + segments[i] <= BB.Flatten(segments)
  {
    if i == |segments| - 1 {
    } else {
      var init := segments[..|segments| - 1];
      FlattenSplit(init, i);
      assert init[..i] == segments[..i];
    }
  }

  lemma NeighboursAscend(segments: seq<seq<Trade>>, rest: seq<Trade>, trades: seq<Trade>, resetOnGap: bool, i: nat)
    requires BB.ProperCuts(segments, resetOnGap) && BB.Flatten(segments) + rest == trades && InTime(trades)
    requires i + 1 < |segments|
    ensures segments[i] != [] && segments[i + 1] != []
    ensures BB.StartOf(segments[i][0]) <= BB.StartOf(segments[i + 1][0])
  {
    var a, b := segments[i], segments[i + 1];
    assert BB.IsSegment(a, resetOnGap) && BB.IsSegment(b, resetOnGap);
    FlattenSplit(segments, i + 1);
    var head := BB.Flatten(segments[..i + 1]);
    assert segments[..i + 1][..i] == segments[..i];
    var p := |BB.Flatten(segments[..i])|;
    assert head == BB.Flatten(segments[..i]) + a;
    assert trades[p] == a[0] && trades[|head|] == b[0];
    StartMonotone(a[0].timestamp, b[0].timestamp);
  }

  lemma StartMonotone(x: int, y: int)
    requires x <= y
    ensures WindowStart(x, MINUTE) <= WindowStart(y, MINUTE)
  {
  }

  lemma SegmentsAscend(segments: seq<seq<Trade>>, rest: seq<Trade>, trades: seq<Trade>, resetOnGap: bool)
    requires NonEmpty(segments) && BB.ProperCuts(segments, resetOnGap)
    requires BB.Flatten(segments) + rest == trades && InTime(trades)
    ensures TE.NeverBack(ClosedBars(segments))
  {
    var bars := ClosedBars(segments);
    ClosedBarStarts(segments);
    forall i | 0 < i < |bars| ensures bars[i - 1].timestamp <= bars[i].timestamp {
      NeighboursAscend(segments, rest, trades, resetOnGap, i - 1);
    }
  }
}
