/** Higher timeframes derived from one-minute bars. A derived bar is recomputed from the
    buffered base bars of its window whenever a base bar arrives, and is closed when a base
    bar of another window arrives. */
module TimeframeEngine {
  import opened Bars
  import opened Basics

  type Positive = n: int | n > 0 witness 1

  /** Base bars by their start time. */
  type Buffer = map<int, Bar>

  datatype EventType = Open | Update | Close

  /** The timeframe is named by its multiplier of one minute. */
  datatype DerivedEvent = DerivedEvent(multiplier: Positive, bar: Bar, kind: EventType)

  function Window(time: int, m: Positive): int {
    WindowStart(time, m * MINUTE)
  }

  // ------------------------------------------------------------ aggregation

  /** The first `n` minutes from `start`, where buffered. */
  function Collect(base: Buffer, start: int, n: nat): seq<Bar> {
    if n == 0 then []
    else
      var key := start + (n - 1) * MINUTE;
      Collect(base, start, n - 1) + (if key in base then [base[key]] else [])
  }

  /** Two neighbouring bars as one: first open, highest high, lowest low, last close, sums. */
  function Join(a: Bar, b: Bar): Bar {
    Bar(a.open, MaxReal(a.high, b.high), MinReal(a.low, b.low), b.close, a.volume + b.volume,
        a.quoteVolume + b.quoteVolume, a.buyVolume + b.buyVolume, a.sellVolume + b.sellVolume,
        a.tradeCount + b.tradeCount, a.timestamp, b.closeTime, b.isComplete, b.seqNo, b.arrivalTime)
  }

  function Fold(bars: seq<Bar>): Bar
    requires bars != []
  {
    if |bars| == 1 then bars[0] else Join(Fold(bars[..|bars| - 1]), bars[|bars| - 1])
  }

  /** The figures of `bar` under the labels of a window. */
  function Labelled(bar: Bar, start: int, m: Positive, complete: bool): Bar {
    bar.(timestamp := start, closeTime := start + m * MINUTE - 1, isComplete := complete)
  }

  /** The all-zero bar of an empty window; its arrival time would be the clock's. */
  function Placeholder(start: int, m: Positive): Bar {
    Bar(0.0, 0.0, 0.0, 0.0, 0.0, 0.0, 0.0, 0.0, 0, start, start + m * MINUTE - 1, false, 0, 0)
  }

  function Aggregate(base: Buffer, start: int, m: Positive): Bar {
    var bars := Collect(base, start, m);
    if bars == [] then Placeholder(start, m) else Labelled(Fold(bars), start, m, |bars| == m)
  }

  /** The aggregate as it is computed: gather the window, then reduce it field by field. */
  method ComputeAggregatedBar(base: Buffer, start: int, m: Positive) returns (bar: Bar)
    ensures bar == Aggregate(base, start, m)
  {
    var bars: seq<Bar> := [];
    for i := 0 to m
      invariant bars == Collect(base, start, i)
    {
      var time := start + i * MINUTE;
      if time in base {
        bars := bars + [base[time]];
      }
    }
    if |bars| == 0 {
      return Placeholder(start, m);
    }
    var first, last := bars[0], bars[|bars| - 1];
    var high, low, volume, quote, buy, sell, count := first.high, first.low, first.volume, first.quoteVolume,
      first.buyVolume, first.sellVolume, first.tradeCount;
    for i := 1 to |bars|
      invariant var f := Fold(bars[..i]);
                && f.open == first.open && f.close == bars[i - 1].close
                && f.high == high && f.low == low && f.volume == volume && f.quoteVolume == quote
                && f.buyVolume == buy && f.sellVolume == sell && f.tradeCount == count
                && f.seqNo == bars[i - 1].seqNo && f.arrivalTime == bars[i - 1].arrivalTime
    {
      assert bars[..i + 1][..i] == bars[..i];
      high, low := MaxReal(high, bars[i].high), MinReal(low, bars[i].low);
      volume, quote := volume + bars[i].volume, quote + bars[i].quoteVolume;
      buy, sell := buy + bars[i].buyVolume, sell + bars[i].sellVolume;
      count := count + bars[i].tradeCount;
    }
    assert bars[..|bars|] == bars;
    bar := Bar(first.open, high, low, last.close, volume, quote, buy, sell, count, start, start + m * MINUTE - 1,
               |bars| == m, last.seqNo, last.arrivalTime);
  }

  // ------------------------------------------------------------ what a window shows

  function MinuteOf(start: int, k: int): int {
    start + k * MINUTE
  }

  /** The earliest buffered minute of the window, or the latest of its first `n`. */
  predicate IsEarliest(base: Buffer, start: int, n: nat, i: nat) {
    i < n && MinuteOf(start, i) in base && forall k :: 0 <= k < i ==> MinuteOf(start, k) !in base
  }

  predicate IsLatest(base: Buffer, start: int, n: nat, i: nat) {
    i < n && MinuteOf(start, i) in base && forall k :: i < k < n ==> MinuteOf(start, k) !in base
  }

  predicate SomeMinute(base: Buffer, start: int, n: nat) {
    exists k :: 0 <= k < n && MinuteOf(start, k) in base
  }

  /** One figure summed over the buffered minutes. */
  function WindowSum(base: Buffer, start: int, n: nat, figure: Bar -> real): real {
    if n == 0 then 0.0
    else
      WindowSum(base, start, n - 1, figure)
      + (if MinuteOf(start, n - 1) in base then figure(base[MinuteOf(start, n - 1)]) else 0.0)
  }

  /** The open of the earliest buffered minute. */
  ghost predicate OpensAs(b: Bar, base: Buffer, start: int, n: nat) {
    exists i: nat :: IsEarliest(base, start, n, i) && b.open == base[MinuteOf(start, i)].open
  }

  /** The close and the arrival of the latest one. */
  ghost predicate ClosesAs(b: Bar, base: Buffer, start: int, n: nat) {
    exists i: nat :: IsLatest(base, start, n, i) && SameEnd(b, base[MinuteOf(start, i)])
  }

  predicate SameEnd(a: Bar, b: Bar) {
    a.close == b.close && a.seqNo == b.seqNo && a.arrivalTime == b.arrivalTime
  }

  /** High and low bound every buffered minute of the window, and some minute attains each. */
  ghost predicate SpansWindow(b: Bar, base: Buffer, start: int, n: nat) {
    && (forall k :: 0 <= k < n && MinuteOf(start, k) in base ==>
          b.low <= base[MinuteOf(start, k)].low && base[MinuteOf(start, k)].high <= b.high)
    && (exists k :: 0 <= k < n && MinuteOf(start, k) in base && b.high == base[MinuteOf(start, k)].high)
    && (exists k :: 0 <= k < n && MinuteOf(start, k) in base && b.low == base[MinuteOf(start, k)].low)
  }

  ghost predicate SumsWindow(b: Bar, base: Buffer, start: int, n: nat) {
    && b.volume == WindowSum(base, start, n, (x: Bar) => x.volume)
    && b.quoteVolume == WindowSum(base, start, n, (x: Bar) => x.quoteVolume)
    && b.buyVolume == WindowSum(base, start, n, (x: Bar) => x.buyVolume)
    && b.sellVolume == WindowSum(base, start, n, (x: Bar) => x.sellVolume)
    && b.tradeCount as real == WindowSum(base, start, n, (x: Bar) => x.tradeCount as real)
  }

  /** What the bar of a window has to show, read off the buffer alone. */
  ghost predicate ShowsWindow(b: Bar, base: Buffer, start: int, m: Positive) {
    && OpensAs(b, base, start, m) && ClosesAs(b, base, start, m)
    && SpansWindow(b, base, start, m) && SumsWindow(b, base, start, m)
    && b.timestamp == start && b.closeTime == start + m * MINUTE - 1
  }

  lemma {:induction false} CollectEmptyIff(base: Buffer, start: int, n: nat)
    ensures Collect(base, start, n) == [] <==> !SomeMinute(base, start, n)
  {
    if n > 0 {
      CollectEmptyIff(base, start, n - 1);
      SomeMinuteNext(base, start, n);
      hide SomeMinute;
    }
  }

  lemma SomeMinuteNext(base: Buffer, start: int, n: nat)
    requires n > 0
    ensures SomeMinute(base, start, n) <==> SomeMinute(base, start, n - 1) || MinuteOf(start, n - 1) in base
  {
    hide MinuteOf;
    if SomeMinute(base, start, n) && MinuteOf(start, n - 1) !in base {
      var k :| 0 <= k < n && MinuteOf(start, k) in base;
      assert k < n - 1;
    }
  }

  /** One more minute: what is gathered, and what it folds to. */
  lemma FoldNext(base: Buffer, start: int, n: nat)
    requires n > 0 && SomeMinute(base, start, n)
    ensures Collect(base, start, n) != []
    ensures var before, key := Collect(base, start, n - 1), MinuteOf(start, n - 1);
            Fold(Collect(base, start, n)) ==
              if key !in base then Fold(before) else if before == [] then base[key] else Join(Fold(before), base[key])
    ensures MinuteOf(start, n - 1) !in base ==> SomeMinute(base, start, n - 1)
  {
    CollectEmptyIff(base, start, n);
    CollectEmptyIff(base, start, n - 1);
    var before, key := Collect(base, start, n - 1), MinuteOf(start, n - 1);
    if key in base {
      assert (before + [base[key]])[..|before|] == before;
    } else {
      assert before + [] == before;
    }
  }

  lemma {:induction false} FoldOpens(base: Buffer, start: int, n: nat, i: nat)
    requires IsEarliest(base, start, n, i)
    ensures Collect(base, start, n) != [] && Fold(Collect(base, start, n)).open == base[MinuteOf(start, i)].open
  {
    assert SomeMinute(base, start, n);
    FoldNext(base, start, n);
    if i < n - 1 {
      FoldOpens(base, start, n - 1, i);
    } else {
      CollectEmptyIff(base, start, n - 1);
    }
  }

  lemma {:induction false} FoldCloses(base: Buffer, start: int, n: nat, i: nat)
    requires IsLatest(base, start, n, i)
    ensures Collect(base, start, n) != [] && SameEnd(Fold(Collect(base, start, n)), base[MinuteOf(start, i)])
  {
    assert SomeMinute(base, start, n);
    FoldNext(base, start, n);
    if i < n - 1 {
      assert IsLatest(base, start, n - 1, i);
      FoldCloses(base, start, n - 1, i);
    }
  }

  lemma {:induction false} EndsExist(base: Buffer, start: int, n: nat) returns (i: nat, k: nat)
    requires SomeMinute(base, start, n)
    ensures IsEarliest(base, start, n, i) && IsLatest(base, start, n, k)
  {
    if SomeMinute(base, start, n - 1) {
      i, k := EndsExist(base, start, n - 1);
    } else {
      i := n - 1;
    }
    if MinuteOf(start, n - 1) in base {
      k := n - 1;
    }
  }

  lemma {:induction false} FoldSpans(base: Buffer, start: int, n: nat)
    requires SomeMinute(base, start, n)
    ensures Collect(base, start, n) != [] && SpansWindow(Fold(Collect(base, start, n)), base, start, n)
  {
    FoldNext(base, start, n);
    CollectEmptyIff(base, start, n - 1);
    if SomeMinute(base, start, n - 1) {
      FoldSpans(base, start, n - 1);
    }
  }

  lemma {:induction false} FoldSums(base: Buffer, start: int, n: nat, figure: Bar -> real)
    requires forall a: Bar, b: Bar :: figure(Join(a, b)) == figure(a) + figure(b)
    ensures WindowSum(base, start, n, figure)
            == if SomeMinute(base, start, n) && Collect(base, start, n) != [] then figure(Fold(Collect(base, start, n)))
               else 0.0
    ensures SomeMinute(base, start, n) ==> Collect(base, start, n) != []
  {
    CollectEmptyIff(base, start, n);
    if n > 0 {
      FoldSums(base, start, n - 1, figure);
      CollectEmptyIff(base, start, n - 1);
      if SomeMinute(base, start, n) {
        FoldNext(base, start, n);
      } else {
        assert !SomeMinute(base, start, n - 1) && MinuteOf(start, n - 1) !in base;
      }
    }
  }

  /** The aggregate of a window with any minute buffered shows exactly that window; without one
      it is all zero and incomplete. */
  lemma AggregateShowsWindow(base: Buffer, start: int, m: Positive)
    ensures SomeMinute(base, start, m) ==> ShowsWindow(Aggregate(base, start, m), base, start, m)
    ensures !SomeMinute(base, start, m) ==>
              Aggregate(base, start, m)
              == Bar(0.0, 0.0, 0.0, 0.0, 0.0, 0.0, 0.0, 0.0, 0, start, start + m * MINUTE - 1, false, 0, 0)
  {
    CollectEmptyIff(base, start, m);
    if SomeMinute(base, start, m) {
      var i, k := EndsExist(base, start, m);
      FoldOpens(base, start, m, i);
      FoldCloses(base, start, m, k);
      FoldSpans(base, start, m);
      FoldSums(base, start, m, (x: Bar) => x.volume);
      FoldSums(base, start, m, (x: Bar) => x.quoteVolume);
      FoldSums(base, start, m, (x: Bar) => x.buyVolume);
      FoldSums(base, start, m, (x: Bar) => x.sellVolume);
      FoldSums(base, start, m, (x: Bar) => x.tradeCount as real);
    }
  }

  // ------------------------------------------------------------ coherence between timeframes

  lemma {:induction false} CollectSplit(base: Buffer, start: int, a: nat, b: nat)
    ensures Collect(base, start, a + b) == Collect(base, start, a) + Collect(base, start + a * MINUTE, b)
    ensures |Collect(base, start, a)| <= a
  {
    if b > 0 {
      CollectSplit(base, start, a, b - 1);
      assert start + (a + b - 1) * MINUTE == start + a * MINUTE + (b - 1) * MINUTE;
    } else if a > 0 {
      CollectSplit(base, start, a - 1, 0);
    }
  }

  /** Folding is a homomorphism: a run of bars folds to the join of its two parts' folds. */
  lemma {:induction false} FoldConcat(a: seq<Bar>, b: seq<Bar>)
    requires a != [] && b != []
    ensures Fold(a + b) == Join(Fold(a), Fold(b))
  {
    var last := |a + b| - 1;
    if |b| == 1 {
      assert (a + b)[..last] == a;
    } else {
      assert (a + b)[..last] == a + b[..|b| - 1];
      FoldConcat(a, b[..|b| - 1]);
    }
  }

  /** The fine bars of `count` consecutive windows, empty windows left out. */
  function FineBars(base: Buffer, start: int, fine: Positive, count: nat): seq<Bar> {
    if count == 0 then []
    else
      var at := start + (count - 1) * fine * MINUTE;
      FineBars(base, start, fine, count - 1) +
      (if Collect(base, at, fine) == [] then [] else [Aggregate(base, at, fine)])
  }

  /** Equal in everything a chart shows except the window's own labels. */
  predicate SameFigures(a: Bar, b: Bar) {
    a == b.(timestamp := a.timestamp, closeTime := a.closeTime, isComplete := a.isComplete)
  }

  /** Both empty, or equal in figures. */
  predicate SameShown(coarse: seq<Bar>, fines: seq<Bar>) {
    && (coarse == [] <==> fines == [])
    && (fines != [] ==> SameFigures(Fold(coarse), Fold(fines)))
  }

  /** One more window on both sides, empty or not, keeps coarse and fine figures equal. */
  lemma AddWindow(coarse: seq<Bar>, last: seq<Bar>, fines: seq<Bar>, more: seq<Bar>)
    requires SameShown(coarse, fines)
    requires if last == [] then more == [] else |more| == 1 && SameFigures(more[0], Fold(last))
    ensures SameShown(coarse + last, fines + more)
  {
    if last == [] {
      assert coarse + last == coarse && fines + more == fines;
    } else if fines == [] {
      assert coarse + last == last && fines + more == more;
    } else {
      FoldConcat(coarse, last);
      FoldConcat(fines, more);
    }
  }

  /** The minutes of `count` consecutive windows. */
  function Minutes(base: Buffer, start: int, fine: Positive, count: nat): seq<Bar> {
    Collect(base, start, count * fine)
  }

  lemma {:induction false} CoarseFromFine(base: Buffer, start: int, fine: Positive, count: nat)
    ensures SameShown(Minutes(base, start, fine, count), FineBars(base, start, fine, count))
  {
    if count > 0 {
      hide *;
      CoarseFromFine(base, start, fine, count - 1);
      var last, more := LastWindow(base, start, fine, count);
      AddWindow(Minutes(base, start, fine, count - 1), last, FineBars(base, start, fine, count - 1), more);
    } else {
      assert count * fine == 0;
    }
  }

  lemma LastWindow(base: Buffer, start: int, fine: Positive, count: Positive) returns (last: seq<Bar>, more: seq<Bar>)
    ensures Minutes(base, start, fine, count) == Minutes(base, start, fine, count - 1) + last
    ensures FineBars(base, start, fine, count) == FineBars(base, start, fine, count - 1) + more
    ensures if last == [] then more == [] else |more| == 1 && SameFigures(more[0], Fold(last))
  {
    var at := start + (count - 1) * fine * MINUTE;
    CollectWindow(base, start, fine, count);
    last := Collect(base, at, fine);
    more := if last == [] then [] else [Aggregate(base, at, fine)];
    FineBarsNext(base, start, fine, count);
    if last != [] {
      AggregateFigures(base, at, fine);
    }
  }

  lemma FineBarsNext(base: Buffer, start: int, fine: Positive, count: Positive)
    ensures var at := start + (count - 1) * fine * MINUTE;
            FineBars(base, start, fine, count)
            == FineBars(base, start, fine, count - 1)
               + (if Collect(base, at, fine) == [] then [] else [Aggregate(base, at, fine)])
  {
  }

  lemma AggregateFigures(base: Buffer, start: int, m: Positive)
    requires Collect(base, start, m) != []
    ensures SameFigures(Aggregate(base, start, m), Fold(Collect(base, start, m)))
  {
  }

  /** The last of `count` windows, split off. */
  lemma CollectWindow(base: Buffer, start: int, fine: Positive, count: Positive)
    ensures var before := (count - 1) * fine;
            && count * fine == before + fine
            && start + before * MINUTE == start + (count - 1) * fine * MINUTE
            && Collect(base, start, count * fine)
               == Collect(base, start, before) + Collect(base, start + before * MINUTE, fine)
            && |Collect(base, start + before * MINUTE, fine)| <= fine
  {
    var before := (count - 1) * fine;
    assert count * fine == before + fine;
    CollectSplit(base, start, before, fine);
    CollectSplit(base, start + before * MINUTE, fine, 0);
  }

  /** Every one of the windows is fully buffered. */
  predicate AllFineComplete(base: Buffer, start: int, fine: Positive, count: nat) {
    forall j :: 0 <= j < count ==> Aggregate(base, start + j * fine * MINUTE, fine).isComplete
  }

  lemma {:induction false} CompleteFromFine(base: Buffer, start: int, fine: Positive, count: nat)
    ensures |Collect(base, start, count * fine)| <= count * fine
    ensures |Collect(base, start, count * fine)| == count * fine <==> AllFineComplete(base, start, fine, count)
  {
    if count > 0 {
      CompleteFromFine(base, start, fine, count - 1);
      CollectWindow(base, start, fine, count);
      AllFineOneMore(base, start, fine, count);
      hide AllFineComplete;
    }
  }

  lemma AllFineOneMore(base: Buffer, start: int, fine: Positive, count: Positive)
    ensures AllFineComplete(base, start, fine, count)
            <==> AllFineComplete(base, start, fine, count - 1)
                 && Aggregate(base, start + (count - 1) * fine * MINUTE, fine).isComplete
  {
    hide Aggregate;
  }

  /** Coherence: a coarse bar is the fold of the finer bars inside it, whatever was buffered,
      and it is complete exactly when all of them are. */
  lemma CoherentTimeframes(base: Buffer, start: int, fine: Positive, count: Positive)
    ensures var coarse := Aggregate(base, start, count * fine);
            var fines := FineBars(base, start, fine, count);
            && (fines == [] ==> coarse == Placeholder(start, count * fine))
            && (fines != [] ==> SameFigures(coarse, Fold(fines)))
            && (coarse.isComplete <==> AllFineComplete(base, start, fine, count))
  {
    CoarseFromFine(base, start, fine, count);
    CompleteFromFine(base, start, fine, count);
  }

  // ------------------------------------------------------------ windows

  lemma FlooredBounds(time: int, width: int)
    requires width > 0
    ensures WindowStart(time, width) <= time < WindowStart(time, width) + width
  {
    DivMod(time, width);
  }

  lemma DivMod(x: int, d: int)
    requires d > 0
    ensures x == x / d * d + x % d && 0 <= x % d < d
  {
  }

  lemma WindowOfStart(q: int, width: int)
    requires width > 0
    ensures WindowStart(q * width, width) == q * width
  {
    var k := (q * width) / width;
    FlooredBounds(q * width, width);
    MultipleGap(k, q, width);
    MultipleGap(q, k, width);
  }

  /** Multiples of the width closer than one width are equal. */
  lemma MultipleGap(a: int, b: int, width: int)
    requires width > 0
    ensures a < b ==> a * width + width <= b * width
    ensures a >= b ==> a * width >= b * width
  {
    if a < b {
      ProductNonNegative(b - a - 1, width);
      assert (b - a - 1) * width == b * width - a * width - width;
    } else {
      ProductNonNegative(a - b, width);
      assert (a - b) * width == a * width - b * width;
    }
  }

  lemma ProductNonNegative(x: int, y: int)
    requires x >= 0 && y >= 0
    ensures x * y >= 0
  {
  }

  lemma WindowBounds(time: int, m: Positive)
    ensures Window(time, m) <= time < Window(time, m) + m * MINUTE
    ensures Window(Window(time, m), m) == Window(time, m)
  {
    FlooredBounds(time, m * MINUTE);
    WindowOfStart(time / (m * MINUTE), m * MINUTE);
  }

  /** Windows are ordered like their times, and two windows never overlap. */
  lemma WindowOrder(a: int, b: int, m: Positive)
    requires a <= b
    ensures Window(a, m) <= Window(b, m)
    ensures Window(a, m) != Window(b, m) ==> Window(a, m) + m * MINUTE <= Window(b, m)
  {
    FlooredOrder(a, b, m * MINUTE);
  }

  lemma FlooredOrder(a: int, b: int, width: int)
    requires width > 0 && a <= b
    ensures WindowStart(a, width) <= WindowStart(b, width)
    ensures WindowStart(a, width) != WindowStart(b, width) ==> WindowStart(a, width) + width <= WindowStart(b, width)
  {
    FlooredBounds(a, width);
    FlooredBounds(b, width);
    MultipleGap(a / width, b / width, width);
    MultipleGap(b / width, a / width, width);
  }

  predicate OnMinute(time: int) {
    time % MINUTE == 0
  }

  /** A minute lies at a whole offset into its window. */
  lemma MinuteOffset(time: int, m: Positive) returns (i: nat)
    requires OnMinute(time)
    ensures i < m && time == Window(time, m) + i * MINUTE
  {
    WindowBounds(time, m);
    var q := time / (m * MINUTE);
    assert Window(time, m) == (q * m) * MINUTE;
    var k := time / MINUTE;
    i := k - q * m;
    assert time == k * MINUTE;
  }

  // ------------------------------------------------------------ volumes in the buffer

  function WindowVolume(base: Buffer, start: int, n: nat): real {
    if n == 0 then 0.0
    else
      var key := start + (n - 1) * MINUTE;
      WindowVolume(base, start, n - 1) + (if key in base then base[key].volume else 0.0)
  }

  lemma {:induction false} CollectVolume(base: Buffer, start: int, n: nat)
    ensures Collect(base, start, n) == [] ==> WindowVolume(base, start, n) == 0.0
    ensures Collect(base, start, n) != [] ==> Fold(Collect(base, start, n)).volume == WindowVolume(base, start, n)
  {
    if n > 0 {
      CollectVolume(base, start, n - 1);
      var key := start + (n - 1) * MINUTE;
      var before := Collect(base, start, n - 1);
      if key in base {
        assert (before + [base[key]])[..|before|] == before;
      } else {
        assert before + [] == before;
      }
    }
  }

  lemma AggregateVolume(base: Buffer, start: int, m: Positive)
    ensures Aggregate(base, start, m).volume == WindowVolume(base, start, m)
  {
    CollectVolume(base, start, m);
  }

  function VolumeAt(base: Buffer, key: int): real {
    if key in base then base[key].volume else 0.0
  }

  /** Storing a bar at offset `i` swaps that minute's volume and nothing else. */
  lemma {:induction false} StoreInside(base: Buffer, start: int, n: nat, i: nat, bar: Bar)
    requires i < n
    ensures WindowVolume(base[start + i * MINUTE := bar], start, n)
            == WindowVolume(base, start, n) - VolumeAt(base, start + i * MINUTE) + bar.volume
  {
    if i == n - 1 {
      StoreOutside(base, start, n - 1, start + i * MINUTE, bar);
    } else {
      StoreInside(base, start, n - 1, i, bar);
    }
  }

  lemma {:induction false} StoreOutside(base: Buffer, start: int, n: nat, key: int, bar: Bar)
    requires key < start || key >= start + n * MINUTE
    ensures Collect(base[key := bar], start, n) == Collect(base, start, n)
    ensures WindowVolume(base[key := bar], start, n) == WindowVolume(base, start, n)
  {
    if n > 0 {
      StoreOutside(base, start, n - 1, key, bar);
    }
  }

  ghost predicate PositiveVolumes(base: Buffer) {
    forall key :: key in base ==> base[key].volume > 0.0
  }

  /** No buffered minute of the window, save possibly `except`. */
  predicate WindowEmpty(base: Buffer, start: int, n: nat, except: int) {
    forall i :: 0 <= i < n && start + i * MINUTE != except ==> start + i * MINUTE !in base
  }

  lemma {:induction false} EmptyMeansNoVolume(base: Buffer, start: int, n: nat, except: int)
    requires PositiveVolumes(base)
    ensures var rest := WindowVolume(base - {except}, start, n);
            rest >= 0.0 && (rest == 0.0 <==> WindowEmpty(base, start, n, except))
  {
    if n > 0 {
      EmptyMeansNoVolume(base, start, n - 1, except);
      assert WindowEmpty(base, start, n, except) <==>
             WindowEmpty(base, start, n - 1, except)
             && (start + (n - 1) * MINUTE != except ==> start + (n - 1) * MINUTE !in base);
    }
  }

  // ------------------------------------------------------------ one timeframe, bar by bar

  /** The engine as one timeframe sees it, with the bars it has closed so far. */
  datatype State = State(base: Buffer, current: Option<Bar>, closes: seq<Bar>)

  function CurrentVolume(current: Option<Bar>): real {
    match current case None => 0.0 case Some(b) => b.volume
  }

  function Total(s: State): real {
    SumVolume(s.closes) + CurrentVolume(s.current)
  }

  predicate Closes(current: Option<Bar>, start: int) {
    current.Some? && current.value.timestamp != start
  }

  /** A closed bar is flagged complete whether or not its window was. */
  function ClosedForm(b: Bar): Bar {
    b.(isComplete := true)
  }

  function Step(s: State, bar: Bar, m: Positive): State {
    var base := s.base[bar.timestamp := bar];
    var start := Window(bar.timestamp, m);
    State(base, Some(Aggregate(base, start, m)),
          if Closes(s.current, start) then s.closes + [ClosedForm(s.current.value)] else s.closes)
  }

  function Run(bars: seq<Bar>, m: Positive): State {
    if bars == [] then State(map[], None, [])
    else Step(Run(bars[..|bars| - 1], m), bars[|bars| - 1], m)
  }

  /** The current bar is always the aggregate of its window. */
  ghost predicate Current(s: State, m: Positive) {
    s.current.Some? ==> s.current.value == Aggregate(s.base, s.current.value.timestamp, m)
  }

  /** Nothing the buffer holds would be counted twice, or lost, by taking `bar` in. */
  predicate FreshFor(s: State, bar: Bar, m: Positive) {
    var start := Window(bar.timestamp, m);
    if s.current.Some? && !Closes(s.current, start) then bar.timestamp !in s.base
    else WindowEmpty(s.base, start, m, bar.timestamp)
  }

  /** How a step changes the total, in terms of the buffer alone. */
  lemma StepTotal(s: State, bar: Bar, m: Positive)
    requires Current(s, m)
    ensures var start := Window(bar.timestamp, m);
            var after := WindowVolume(s.base[bar.timestamp := bar], start, m);
            Total(Step(s, bar, m)) ==
              if s.current.None? || Closes(s.current, start) then Total(s) + after
              else Total(s) - WindowVolume(s.base, start, m) + after
  {
    var start := Window(bar.timestamp, m);
    var next := Step(s, bar, m);
    AggregateVolume(next.base, start, m);
    AggregateVolume(s.base, start, m);
    if Closes(s.current, start) {
      assert next.closes[..|s.closes|] == s.closes;
    }
  }

  lemma {:induction false} EmptyWindowVolume(base: Buffer, start: int, n: nat, except: int)
    requires WindowEmpty(base, start, n, except)
    ensures WindowVolume(base - {except}, start, n) == 0.0
  {
    if n > 0 {
      EmptyWindowVolume(base, start, n - 1, except);
    }
  }

  /** A fresh bar adds its own volume, whatever the volumes are. */
  lemma FreshConserves(s: State, bar: Bar, m: Positive)
    requires Current(s, m) && OnMinute(bar.timestamp) && FreshFor(s, bar, m)
    ensures Total(Step(s, bar, m)) == Total(s) + bar.volume
  {
    var start := Window(bar.timestamp, m);
    var i := MinuteOffset(bar.timestamp, m);
    StepTotal(s, bar, m);
    if s.current.Some? && !Closes(s.current, start) {
      StoreInside(s.base, start, m, i, bar);
    } else {
      var rest := s.base - {bar.timestamp};
      assert s.base[bar.timestamp := bar] == rest[bar.timestamp := bar];
      StoreInside(rest, start, m, i, bar);
      EmptyWindowVolume(s.base, start, m, bar.timestamp);
    }
  }

  /** When a step conserves volume, closed plus current: exactly when the minute is new to
      the open window, or the newly opened window holds nothing else. */
  lemma StepConserves(s: State, bar: Bar, m: Positive)
    requires Current(s, m) && PositiveVolumes(s.base) && OnMinute(bar.timestamp)
    ensures Current(Step(s, bar, m), m)
    ensures Total(Step(s, bar, m)) == Total(s) + bar.volume <==> FreshFor(s, bar, m)
  {
    var start := Window(bar.timestamp, m);
    var i := MinuteOffset(bar.timestamp, m);
    StepTotal(s, bar, m);
    if s.current.Some? && !Closes(s.current, start) {
      StoreInside(s.base, start, m, i, bar);
    } else {
      var rest := s.base - {bar.timestamp};
      assert s.base[bar.timestamp := bar] == rest[bar.timestamp := bar];
      StoreInside(rest, start, m, i, bar);
      EmptyMeansNoVolume(s.base, start, m, bar.timestamp);
    }
  }

  // ------------------------------------------------------------ whole runs

  /** Base bars on whole minutes, each later than the one before. */
  predicate InOrder(bars: seq<Bar>) {
    && (forall i :: 0 <= i < |bars| ==> OnMinute(bars[i].timestamp))
    && (forall i, j :: 0 <= i < j < |bars| ==> bars[i].timestamp < bars[j].timestamp)
  }

  /** The buffer holds exactly the bars fed, each under its own time. */
  ghost predicate Buffered(base: Buffer, bars: seq<Bar>) {
    && (forall i :: 0 <= i < |bars| ==> bars[i].timestamp in base && base[bars[i].timestamp] == bars[i])
    && (forall key :: key in base ==> exists i :: 0 <= i < |bars| && bars[i].timestamp == key)
  }

  /** Every closed bar is final: it is the aggregate of all that was ever fed for its window,
      and the windows closed are distinct and older than the open one. */
  ghost predicate ClosesAreFinal(s: State, m: Positive) {
    && (forall i :: 0 <= i < |s.closes| ==>
          s.closes[i] == ClosedForm(Aggregate(s.base, s.closes[i].timestamp, m)))
    && (forall i :: 0 <= i < |s.closes| ==>
          s.current.Some? && s.closes[i].timestamp + m * MINUTE <= s.current.value.timestamp)
    && (forall i, j :: 0 <= i < j < |s.closes| ==> s.closes[i].timestamp + m * MINUTE <= s.closes[j].timestamp)
  }

  ghost predicate RunFacts(s: State, bars: seq<Bar>, m: Positive) {
    && Buffered(s.base, bars)
    && Current(s, m)
    && (bars == [] ==> s == State(map[], None, []))
    && (bars != [] ==> s.current.Some? && s.current.value.timestamp == Window(bars[|bars| - 1].timestamp, m))
    && ClosesAreFinal(s, m)
    && Total(s) == SumVolume(bars)
  }

  /** Fed in order: nothing is lost or counted twice, and no closed bar is ever out of date. */
  lemma {:induction false} RunInOrder(bars: seq<Bar>, m: Positive)
    requires InOrder(bars)
    ensures RunFacts(Run(bars, m), bars, m)
  {
    if bars == [] {
      EmptyRun(m);
    } else {
      var init, last := bars[..|bars| - 1], bars[|bars| - 1];
      RunInOrder(init, m);
      assert bars == init + [last];
      hide RunFacts, Step;
      RunStep(Run(init, m), init, last, m);
    }
  }

  lemma EmptyRun(m: Positive)
    ensures RunFacts(Run([], m), [], m)
  {
  }

  lemma StepShape(s: State, bar: Bar, m: Positive)
    ensures var next := Step(s, bar, m);
            && next.base == s.base[bar.timestamp := bar] && Current(next, m)
            && next.current.Some? && next.current.value.timestamp == Window(bar.timestamp, m)
  {
  }

  lemma RunStep(s: State, bars: seq<Bar>, bar: Bar, m: Positive)
    requires RunFacts(s, bars, m) && InOrder(bars + [bar])
    ensures RunFacts(Step(s, bar, m), bars + [bar], m)
  {
    var more := bars + [bar];
    assert more[|bars|] == bar && more[..|bars|] == bars && SumVolume(more) == SumVolume(bars) + bar.volume;
    StepShape(s, bar, m);
    hide Step, Aggregate, Window, Buffered, Current, ClosesAreFinal, Total, FreshFor, SumVolume;
    BufferGrows(s.base, bars, bar);
    WindowBounds(bar.timestamp, m);
    if bars != [] {
      var last := bars[|bars| - 1];
      assert last == more[|bars| - 1];
      WindowOrder(last.timestamp, bar.timestamp, m);
      WindowBounds(last.timestamp, m);
    }
    LaterBarIsFresh(s, bar, m);
    FreshConserves(s, bar, m);
    ClosesStayFinal(s, bar, m);
  }

  // ------------------------------------------------------------ repeated minutes

  /** `bar` behind `bars`, in place of the last of them if that has the same minute. */
  function Absorb(bars: seq<Bar>, bar: Bar): seq<Bar> {
    if bars != [] && bars[|bars| - 1].timestamp == bar.timestamp then bars[..|bars| - 1] + [bar] else bars + [bar]
  }

  /** Of neighbouring bars with one timestamp, the last. */
  function LastPerMinute(bars: seq<Bar>): seq<Bar> {
    if bars == [] then [] else Absorb(LastPerMinute(bars[..|bars| - 1]), bars[|bars| - 1])
  }

  /** A second bar of the same minute takes the place of the first, in buffer and aggregate. */
  lemma SecondBarReplaces(s: State, a: Bar, b: Bar, m: Positive)
    requires a.timestamp == b.timestamp
    ensures Step(Step(s, a, m), b, m) == Step(s, b, m)
  {
    var key := a.timestamp;
    assert s.base[key := a][key := b] == s.base[key := b];
    assert Aggregate(s.base[key := a], Window(key, m), m).timestamp == Window(key, m);
  }

  /** So a run only ever sees the last bar of each stretch of one minute. */
  lemma {:induction false} RunIsOfLastBars(bars: seq<Bar>, m: Positive)
    ensures Run(bars, m) == Run(LastPerMinute(bars), m)
  {
    if bars != [] {
      var init, bar := bars[..|bars| - 1], bars[|bars| - 1];
      RunIsOfLastBars(init, m);
      var before := LastPerMinute(init);
      if before != [] && before[|before| - 1].timestamp == bar.timestamp {
        var kept := before[..|before| - 1];
        SecondBarReplaces(Run(kept, m), before[|before| - 1], bar, m);
        assert (kept + [bar])[..|kept|] == kept;
      } else {
        assert (before + [bar])[..|before|] == before;
      }
    }
  }

  /** Base bars on whole minutes, none earlier than the one before. */
  predicate NeverBack(bars: seq<Bar>) {
    && (forall i :: 0 <= i < |bars| ==> OnMinute(bars[i].timestamp))
    && (forall i :: 0 < i < |bars| ==> bars[i - 1].timestamp <= bars[i].timestamp)
  }

  /** No two neighbours share their minute. */
  predicate NoRepeats(bars: seq<Bar>) {
    forall i :: 0 < i < |bars| ==> bars[i - 1].timestamp != bars[i].timestamp
  }

  lemma AbsorbInOrder(bars: seq<Bar>, bar: Bar)
    requires InOrder(bars) && OnMinute(bar.timestamp)
    requires bars != [] ==> bars[|bars| - 1].timestamp <= bar.timestamp
    ensures InOrder(Absorb(bars, bar))
    ensures Absorb(bars, bar) != [] && Absorb(bars, bar)[|Absorb(bars, bar)| - 1] == bar
  {
  }

  lemma AbsorbVolume(bars: seq<Bar>, bar: Bar)
    ensures SumVolume(Absorb(bars, bar))
            == SumVolume(bars) + bar.volume
               - (if bars != [] && bars[|bars| - 1].timestamp == bar.timestamp then bars[|bars| - 1].volume else 0.0)
  {
    if bars != [] && bars[|bars| - 1].timestamp == bar.timestamp {
      var kept := bars[..|bars| - 1];
      assert (kept + [bar])[..|kept|] == kept;
    } else {
      assert (bars + [bar])[..|bars|] == bars;
    }
  }

  lemma NoRepeatsStep(bars: seq<Bar>, bar: Bar)
    ensures NoRepeats(bars + [bar])
            <==> NoRepeats(bars) && (bars != [] ==> bars[|bars| - 1].timestamp != bar.timestamp)
  {
    var more := bars + [bar];
    assert more[|bars|] == bar && (bars != [] ==> more[|bars| - 1] == bars[|bars| - 1]);
    if NoRepeats(more) {
      forall i | 0 < i < |bars| ensures bars[i - 1].timestamp != bars[i].timestamp {
        assert more[i - 1].timestamp != more[i].timestamp;
      }
    }
  }

  lemma NeverBackStep(bars: seq<Bar>, bar: Bar)
    requires NeverBack(bars + [bar])
    ensures NeverBack(bars) && OnMinute(bar.timestamp)
    ensures bars != [] ==> bars[|bars| - 1].timestamp <= bar.timestamp
  {
    var more := bars + [bar];
    assert more[|bars|] == bar && (bars != [] ==> more[|bars| - 1] == bars[|bars| - 1]);
    forall i | 0 <= i < |bars| ensures OnMinute(bars[i].timestamp) {
      assert more[i] == bars[i];
    }
    forall i | 0 < i < |bars| ensures bars[i - 1].timestamp <= bars[i].timestamp {
      assert more[i - 1].timestamp <= more[i].timestamp;
    }
  }

  lemma {:induction false} LastBarsInOrder(bars: seq<Bar>)
    requires NeverBack(bars)
    ensures InOrder(LastPerMinute(bars))
    ensures bars != [] ==> LastPerMinute(bars) != []
                           && LastPerMinute(bars)[|LastPerMinute(bars)| - 1] == bars[|bars| - 1]
  {
    if bars != [] {
      var init, bar := bars[..|bars| - 1], bars[|bars| - 1];
      assert bars == init + [bar];
      NeverBackStep(init, bar);
      LastBarsInOrder(init);
      AbsorbInOrder(LastPerMinute(init), bar);
    }
  }

  /** What is lost: the bars that were replaced. With positive volumes nothing is lost exactly
      when no minute repeats. */
  lemma {:induction false} RepeatsLoseVolume(bars: seq<Bar>)
    requires NeverBack(bars) && forall i :: 0 <= i < |bars| ==> bars[i].volume > 0.0
    ensures SumVolume(LastPerMinute(bars)) <= SumVolume(bars)
    ensures SumVolume(LastPerMinute(bars)) == SumVolume(bars) <==> NoRepeats(bars)
  {
    if bars != [] {
      var init, bar := bars[..|bars| - 1], bars[|bars| - 1];
      assert bars == init + [bar];
      NeverBackStep(init, bar);
      NoRepeatsStep(init, bar);
      RepeatsLoseVolume(init);
      LastBarsInOrder(init);
      AbsorbVolume(LastPerMinute(init), bar);
      assert SumVolume(bars) == SumVolume(init) + bar.volume;
      hide SumVolume, NoRepeats, NeverBack, InOrder, Absorb;
      if init != [] {
        assert init[|init| - 1].volume > 0.0;
      }
    }
  }

  /** Fed bars that never go back: the exact total, and when it is everything that was fed. */
  lemma RunNeverBack(bars: seq<Bar>, m: Positive)
    requires NeverBack(bars) && forall i :: 0 <= i < |bars| ==> bars[i].volume > 0.0
    ensures RunFacts(Run(bars, m), LastPerMinute(bars), m)
    ensures Total(Run(bars, m)) == SumVolume(bars) <==> NoRepeats(bars)
  {
    RunIsOfLastBars(bars, m);
    LastBarsInOrder(bars);
    RunInOrder(LastPerMinute(bars), m);
    RepeatsLoseVolume(bars);
  }

  lemma BufferGrows(base: Buffer, bars: seq<Bar>, bar: Bar)
    requires Buffered(base, bars) && InOrder(bars + [bar])
    ensures Buffered(base[bar.timestamp := bar], bars + [bar])
    ensures forall key :: key in base ==> key < bar.timestamp
    ensures bars != [] ==> forall key :: key in base ==> key <= bars[|bars| - 1].timestamp
  {
    var more := bars + [bar];
    assert more[|bars|] == bar;
    forall i | 0 <= i < |bars|
      ensures bars[i].timestamp < bar.timestamp && bars[i].timestamp <= bars[|bars| - 1].timestamp
    {
      assert more[i] == bars[i] && more[|bars| - 1] == bars[|bars| - 1];
    }
    var grown := base[bar.timestamp := bar];
    forall key | key in grown ensures exists i :: 0 <= i < |more| && more[i].timestamp == key {
      if key != bar.timestamp {
        var i :| 0 <= i < |bars| && bars[i].timestamp == key;
        assert more[i] == bars[i];
      }
    }
  }

  /** In order, every bar is fresh: its minute is new and so is any window it opens. */
  lemma LaterBarIsFresh(s: State, bar: Bar, m: Positive)
    requires forall key :: key in s.base ==> key < bar.timestamp
    requires s.current.None? ==> s.base == map[]
    requires s.current.Some? ==>
               forall key :: key in s.base ==> key < s.current.value.timestamp + m * MINUTE
    requires s.current.Some? ==>
               var start := Window(bar.timestamp, m);
               s.current.value.timestamp != start ==> s.current.value.timestamp + m * MINUTE <= start
    ensures FreshFor(s, bar, m)
  {
  }

  lemma ClosesStayFinal(s: State, bar: Bar, m: Positive)
    requires Current(s, m) && ClosesAreFinal(s, m)
    requires s.current.Some? ==>
               var start := Window(bar.timestamp, m);
               && s.current.value.timestamp <= start <= bar.timestamp
               && (s.current.value.timestamp != start ==> s.current.value.timestamp + m * MINUTE <= start)
    ensures ClosesAreFinal(Step(s, bar, m), m)
  {
    var next := Step(s, bar, m);
    forall i | 0 <= i < |next.closes|
      ensures next.closes[i] == ClosedForm(Aggregate(next.base, next.closes[i].timestamp, m))
    {
      StoreOutside(s.base, next.closes[i].timestamp, m, bar.timestamp, bar);
    }
  }

  // ------------------------------------------------------------ the engine

  /** What one base bar makes a timeframe emit. */
  function Emitted(s: State, bar: Bar, m: Positive): seq<DerivedEvent> {
    var start := Window(bar.timestamp, m);
    var next := Step(s, bar, m).current.value;
    (if Closes(s.current, start) then [DerivedEvent(m, ClosedForm(s.current.value), Close)] else []) +
    [DerivedEvent(m, next, if Closes(s.current, start) || s.current.None? then Open else Update)]
  }

  /** Everything a timeframe's subscribers have seen. */
  function Log(bars: seq<Bar>, m: Positive): seq<DerivedEvent> {
    if bars == [] then []
    else
      var init := bars[..|bars| - 1];
      Log(init, m) + Emitted(Run(init, m), bars[|bars| - 1], m)
  }

  /** The base bars, the latest under each time. */
  function Stored(bars: seq<Bar>): Buffer {
    if bars == [] then map[] else Stored(bars[..|bars| - 1])[bars[|bars| - 1].timestamp := bars[|bars| - 1]]
  }

  lemma {:induction false} RunBase(bars: seq<Bar>, m: Positive)
    ensures Run(bars, m).base == Stored(bars)
  {
    if bars != [] {
      RunBase(bars[..|bars| - 1], m);
    }
  }

  lemma RunExtends(bars: seq<Bar>, bar: Bar, m: Positive)
    ensures Run(bars + [bar], m) == Step(Run(bars, m), bar, m)
    ensures Log(bars + [bar], m) == Log(bars, m) + Emitted(Run(bars, m), bar, m)
    ensures Run(bars, m).base == Stored(bars)
  {
    assert (bars + [bar])[..|bars|] == bars;
    RunBase(bars, m);
  }

  // ------------------------------------------------------------ when the complete flag is true

  /** Every minute of the window is buffered. */
  predicate FullWindow(base: Buffer, start: int, n: nat) {
    forall k :: 0 <= k < n ==> start + k * MINUTE in base
  }

  /** A window gathers all its minutes exactly if none is missing. */
  lemma {:induction false} CollectCounts(base: Buffer, start: int, n: nat)
    ensures |Collect(base, start, n)| <= n
    ensures |Collect(base, start, n)| == n <==> FullWindow(base, start, n)
  {
    if n > 0 {
      CollectCounts(base, start, n - 1);
      assert FullWindow(base, start, n)
             <==> FullWindow(base, start, n - 1) && start + (n - 1) * MINUTE in base;
    }
  }

  lemma AggregateComplete(base: Buffer, start: int, m: Positive)
    ensures Aggregate(base, start, m).isComplete <==> FullWindow(base, start, m)
  {
    CollectCounts(base, start, m);
  }

  /** The buffered minutes are the minutes that were fed. */
  lemma {:induction false} StoredMinutes(bars: seq<Bar>, key: int)
    ensures key in Stored(bars) <==> exists j :: 0 <= j < |bars| && bars[j].timestamp == key
  {
    if bars != [] {
      var init, last := bars[..|bars| - 1], bars[|bars| - 1];
      StoredMinutes(init, key);
      if key in Stored(init) {
        var j :| 0 <= j < |init| && init[j].timestamp == key;
        assert bars[j].timestamp == key;
      }
      if j :| 0 <= j < |bars| && bars[j].timestamp == key {
        assert j < |init| ==> init[j].timestamp == key;
      }
    }
  }

  /** Every minute of the window was fed, at some time or other. */
  ghost predicate AllMinutesFed(bars: seq<Bar>, start: int, m: Positive) {
    forall k :: 0 <= k < m ==> WasFed(bars, start + k * MINUTE)
  }

  ghost predicate WasFed(bars: seq<Bar>, minute: int) {
    exists j :: 0 <= j < |bars| && bars[j].timestamp == minute
  }

  lemma FullIsFed(bars: seq<Bar>, start: int, m: Positive)
    ensures FullWindow(Stored(bars), start, m) <==> AllMinutesFed(bars, start, m)
  {
    forall k | 0 <= k < m ensures start + k * MINUTE in Stored(bars) <==> WasFed(bars, start + k * MINUTE) {
      StoredMinutes(bars, start + k * MINUTE);
    }
  }

  lemma {:induction false} RunIsCurrent(bars: seq<Bar>, m: Positive)
    ensures Current(Run(bars, m), m)
  {
  }

  /** For bars in any order: the bar that closes has always been flagged complete, and what it
      was before the flag was overwritten is complete exactly if every minute of its window has
      been fed by then. */
  lemma FlagAtClose(bars: seq<Bar>, bar: Bar, m: Positive)
    requires Closes(Run(bars, m).current, Window(bar.timestamp, m))
    ensures var shown, closes := Run(bars, m).current.value, Run(bars + [bar], m).closes;
            && closes == Run(bars, m).closes + [ClosedForm(shown)]
            && closes[|closes| - 1].isComplete
            && (shown.isComplete <==> AllMinutesFed(bars, shown.timestamp, m))
  {
    RunExtends(bars, bar, m);
    RunIsCurrent(bars, m);
    AggregateComplete(Stored(bars), Run(bars, m).current.value.timestamp, m);
    FullIsFed(bars, Run(bars, m).current.value.timestamp, m);
  }

  /** For bars that never go back, over a whole run: each closed bar is its window's aggregate
      save for the flag, which is always set, and true exactly if every minute was fed. */
  lemma FlagIsTrueIff(bars: seq<Bar>, m: Positive, i: nat)
    requires NeverBack(bars) && i < |Run(bars, m).closes|
    ensures var closed := Run(bars, m).closes[i];
            var window := Aggregate(Run(bars, m).base, closed.timestamp, m);
            && closed == ClosedForm(window) && closed.isComplete
            && (window.isComplete <==> AllMinutesFed(bars, closed.timestamp, m))
  {
    RunIsOfLastBars(bars, m);
    LastBarsInOrder(bars);
    RunInOrder(LastPerMinute(bars), m);
    RunBase(bars, m);
    var start := Run(bars, m).closes[i].timestamp;
    AggregateComplete(Stored(bars), start, m);
    FullIsFed(bars, start, m);
  }

  /** For whole minutes in any order: after every base bar, the bar on show is what the buffered
      minutes of that base bar's window say. */
  lemma CurrentShowsWindow(bars: seq<Bar>, bar: Bar, m: Positive)
    requires OnMinute(bar.timestamp)
    ensures var s := Run(bars + [bar], m);
            && s.base == Stored(bars + [bar])
            && s.current.Some? && ShowsWindow(s.current.value, s.base, Window(bar.timestamp, m), m)
  {
    RunExtends(bars, bar, m);
    RunBase(bars + [bar], m);
    var base := Stored(bars)[bar.timestamp := bar];
    assert (bars + [bar])[..|bars|] == bars;
    MinuteIsInWindow(base, bar.timestamp, m);
    AggregateShowsWindow(base, Window(bar.timestamp, m), m);
  }

  lemma MinuteIsInWindow(base: Buffer, time: int, m: Positive)
    requires OnMinute(time) && time in base
    ensures SomeMinute(base, Window(time, m), m)
  {
    var i := MinuteOffset(time, m);
    assert MinuteOf(Window(time, m), i) in base;
  }

  /** Every window on show, or ever closed, is that of a bar that was fed. */
  lemma {:induction false} WindowsWereFed(bars: seq<Bar>, m: Positive, start: int)
    requires var s := Run(bars, m);
             (s.current.Some? && s.current.value.timestamp == start)
             || exists i :: 0 <= i < |s.closes| && s.closes[i].timestamp == start
    ensures exists j :: 0 <= j < |bars| && Window(bars[j].timestamp, m) == start
  {
    if bars != [] {
      var init, last := bars[..|bars| - 1], bars[|bars| - 1];
      if start != Window(last.timestamp, m) {
        WindowsWereFed(init, m, start);
        var j :| 0 <= j < |init| && Window(init[j].timestamp, m) == start;
        assert bars[j] == init[j];
      } else {
        assert bars[|bars| - 1] == last;
      }
    }
  }

  /** Over a whole run of bars that never go back: every closed bar shows its window, as all the
      bars ever fed make it. */
  lemma ClosesShowWindows(bars: seq<Bar>, m: Positive, i: nat)
    requires NeverBack(bars) && i < |Run(bars, m).closes|
    ensures var closed := Run(bars, m).closes[i]; ShowsWindow(closed, Stored(bars), closed.timestamp, m)
  {
    RunBase(bars, m);
    FlagIsTrueIff(bars, m, i);
    var start := Run(bars, m).closes[i].timestamp;
    WindowsWereFed(bars, m, start);
    var j :| 0 <= j < |bars| && Window(bars[j].timestamp, m) == start;
    StoredMinutes(bars, bars[j].timestamp);
    MinuteIsInWindow(Stored(bars), bars[j].timestamp, m);
    AggregateShowsWindow(Stored(bars), start, m);
    LabelsKeepFigures(Aggregate(Stored(bars), start, m), Stored(bars), start, m);
  }

  lemma LabelsKeepFigures(b: Bar, base: Buffer, start: int, m: Positive)
    requires ShowsWindow(b, base, start, m)
    ensures ShowsWindow(ClosedForm(b), base, start, m)
  {
    var i: nat :| IsEarliest(base, start, m, i) && b.open == base[MinuteOf(start, i)].open;
    assert ClosedForm(b).open == base[MinuteOf(start, i)].open;
    var k: nat :| IsLatest(base, start, m, k) && SameEnd(b, base[MinuteOf(start, k)]);
    assert SameEnd(ClosedForm(b), base[MinuteOf(start, k)]);
  }

  lemma OneMinuteMissing(a: Bar, b: Bar)
    requires a.timestamp == 0 && b.timestamp == 5 * MINUTE
    ensures !AllMinutesFed([a, b], 0, 5)
  {
    var minute := 0 + 1 * MINUTE;
    assert forall j :: 0 <= j < 2 ==> [a, b][j].timestamp != minute;
    assert !WasFed([a, b], minute);
  }

  /** A five-minute window closed after a single base bar still calls itself complete. */
  lemma PartialWindowClosesAsComplete(a: Bar, b: Bar)
    requires a.timestamp == 0 && b.timestamp == 5 * MINUTE
    ensures var s := Run([a, b], 5);
            && |s.closes| == 1 && s.closes[0].isComplete
            && !Aggregate(s.base, s.closes[0].timestamp, 5).isComplete
  {
    assert [a, b][..1] == [a] && [a][..0] == [];
    assert Run([], 5) == State(map[], None, []);
    assert Run([a], 5) == Step(Run([], 5), a, 5);
    StepShape(Run([], 5), a, 5);
    hide Aggregate, AllMinutesFed;
    var s := Run([a, b], 5);
    assert s == Step(Run([a], 5), b, 5) && s.closes[0].timestamp == 0;
    hide Run, Step;
    FlagIsTrueIff([a, b], 5, 0);
    OneMinuteMissing(a, b);
  }

  /** What a timeframe shows: its current bar and its log. */
  type Shown = (Option<Bar>, seq<DerivedEvent>)

  /** What each timeframe shows after being fed `bars` on its own. */
  ghost function ShownBy(bars: seq<Bar>): Positive -> Shown {
    (m: Positive) => (Run(bars, m).current, Log(bars, m))
  }

  ghost predicate StandsAt(derived: map<Positive, Option<Bar>>, logs: map<Positive, seq<DerivedEvent>>, m: Positive,
                           shown: Shown)
  {
    m in derived && m in logs && (derived[m], logs[m]) == shown
  }

  /** The first `done` timeframes show `after`, the others still show `before`. */
  ghost predicate Progress(derived: map<Positive, Option<Bar>>, logs: map<Positive, seq<DerivedEvent>>,
                           timeframes: seq<Positive>, done: nat, before: Positive -> Shown, after: Positive -> Shown)
  {
    forall k :: 0 <= k < |timeframes| ==>
      StandsAt(derived, logs, timeframes[k], if k < done then after(timeframes[k]) else before(timeframes[k]))
  }

  lemma ProgressStep(derived: map<Positive, Option<Bar>>, logs: map<Positive, seq<DerivedEvent>>,
                     timeframes: seq<Positive>, i: nat, before: Positive -> Shown, after: Positive -> Shown)
    requires Progress(derived, logs, timeframes, i, before, after) && i < |timeframes|
    requires forall j, k :: 0 <= j < k < |timeframes| ==> timeframes[j] != timeframes[k]
    ensures var m := timeframes[i];
            Progress(derived[m := after(m).0], logs[m := after(m).1], timeframes, i + 1, before, after)
  {
    var m := timeframes[i];
    var derived', logs' := derived[m := after(m).0], logs[m := after(m).1];
    assert StandsAt(derived', logs', m, after(m));
    forall k | 0 <= k < |timeframes|
      ensures StandsAt(derived', logs', timeframes[k], if k < i + 1 then after(timeframes[k]) else before(timeframes[k]))
    {
      if k != i {
        assert timeframes[k] != m;
        assert StandsAt(derived, logs, timeframes[k], if k < i then after(timeframes[k]) else before(timeframes[k]));
      }
    }
  }

  function CloseBars(events: seq<DerivedEvent>): seq<Bar> {
    if events == [] then []
    else
      var last := events[|events| - 1];
      CloseBars(events[..|events| - 1]) + (if last.kind == Close then [last.bar] else [])
  }

  lemma CloseBarsSnoc(events: seq<DerivedEvent>, e: DerivedEvent)
    ensures CloseBars(events + [e]) == CloseBars(events) + (if e.kind == Close then [e.bar] else [])
  {
    assert (events + [e])[..|events|] == events;
  }

  /** The closed bars of a run are exactly those its subscribers saw closing. */
  lemma {:induction false} ClosesAreLogged(bars: seq<Bar>, m: Positive)
    ensures CloseBars(Log(bars, m)) == Run(bars, m).closes
  {
    if bars == [] {
      assert CloseBars([]) == [];
    } else {
      hide Aggregate, Window, CloseBars, Closes;
      var init, bar := bars[..|bars| - 1], bars[|bars| - 1];
      ClosesAreLogged(init, m);
      var s := Run(init, m);
      var start := Window(bar.timestamp, m);
      var next := Step(s, bar, m).current.value;
      var shown := DerivedEvent(m, next, if Closes(s.current, start) || s.current.None? then Open else Update);
      if Closes(s.current, start) {
        var closing := DerivedEvent(m, ClosedForm(s.current.value), Close);
        CloseBarsSnoc(Log(init, m), closing);
        CloseBarsSnoc(Log(init, m) + [closing], shown);
        assert Log(bars, m) == Log(init, m) + [closing] + [shown];
      } else {
        CloseBarsSnoc(Log(init, m), shown);
        assert Log(bars, m) == Log(init, m) + [shown];
      }
    }
  }

  // ------------------------------------------------------------ sanity

  ghost predicate SaneBuffer(base: Buffer) {
    forall key :: key in base ==> Sane(base[key])
  }

  lemma JoinIsSane(a: Bar, b: Bar)
    requires Sane(a) && Sane(b)
    ensures Sane(Join(a, b))
  {
    ValueStaysInRange(a.low, a.high, a.volume, a.quoteVolume, b.low, b.high, b.volume, b.quoteVolume,
                      MinReal(a.low, b.low), MaxReal(a.high, b.high));
  }

  lemma {:induction false} WindowIsSane(base: Buffer, start: int, n: nat)
    requires SaneBuffer(base)
    ensures Collect(base, start, n) != [] ==> Sane(Fold(Collect(base, start, n)))
  {
    if n > 0 {
      WindowIsSane(base, start, n - 1);
      var before := Collect(base, start, n - 1);
      var key := start + (n - 1) * MINUTE;
      if key in base {
        assert (before + [base[key]])[..|before|] == before;
        if before != [] {
          JoinIsSane(Fold(before), base[key]);
        }
      } else {
        assert before + [] == before;
      }
    }
  }

  lemma LabelsKeepSanity(b: Bar, start: int, m: Positive, complete: bool)
    requires Sane(b)
    ensures Sane(Labelled(b, start, m, complete)) && Sane(ClosedForm(b))
  {
  }

  lemma {:induction false} CollectFinds(base: Buffer, start: int, n: nat, i: nat)
    requires i < n && start + i * MINUTE in base
    ensures Collect(base, start, n) != []
  {
    if i < n - 1 {
      CollectFinds(base, start, n - 1, i);
    }
  }

  ghost predicate SaneLog(events: seq<DerivedEvent>) {
    forall i :: 0 <= i < |events| ==> Sane(events[i].bar)
  }

  /** Fed sane bars on whole minutes, in any order and with any gaps or repeats, a timeframe
      only ever shows sane bars; the zero placeholder is not one, so it is never shown. */
  lemma {:induction false} RunIsSane(bars: seq<Bar>, m: Positive)
    requires forall i :: 0 <= i < |bars| ==> Sane(bars[i]) && OnMinute(bars[i].timestamp)
    ensures SaneBuffer(Run(bars, m).base) && SaneLog(Log(bars, m))
    ensures Run(bars, m).current.Some? ==> Sane(Run(bars, m).current.value)
    ensures forall start :: !Sane(Placeholder(start, m))
  {
    if bars != [] {
      var init, bar := bars[..|bars| - 1], bars[|bars| - 1];
      RunIsSane(init, m);
      StepIsSane(Run(init, m), bar, m);
    }
  }

  lemma StepIsSane(s: State, bar: Bar, m: Positive)
    requires SaneBuffer(s.base) && Sane(bar) && OnMinute(bar.timestamp)
    requires s.current.Some? ==> Sane(s.current.value)
    ensures var next := Step(s, bar, m);
            SaneBuffer(next.base) && Sane(next.current.value) && SaneLog(Emitted(s, bar, m))
  {
    var base := s.base[bar.timestamp := bar];
    var start := Window(bar.timestamp, m);
    var i := MinuteOffset(bar.timestamp, m);
    CollectFinds(base, start, m, i);
    WindowIsSane(base, start, m);
    var bars := Collect(base, start, m);
    LabelsKeepSanity(Fold(bars), start, m, |bars| == m);
    if s.current.Some? {
      LabelsKeepSanity(s.current.value, start, m, true);
    }
  }

  class TimeframeEngine {
    const timeframes: seq<Positive>
    var baseBarBuffer: Buffer
    var derivedBars: map<Positive, Option<Bar>>
    var logs: map<Positive, seq<DerivedEvent>>
    ghost var fed: seq<Bar>

    ghost predicate Valid()
      reads this
    {
      && (forall i, j :: 0 <= i < j < |timeframes| ==> timeframes[i] != timeframes[j])
      && baseBarBuffer == Stored(fed)
      && Progress(derivedBars, logs, timeframes, 0, ShownBy(fed), ShownBy(fed))
    }

    constructor (timeframes: seq<Positive>)
      requires forall i, j :: 0 <= i < j < |timeframes| ==> timeframes[i] != timeframes[j]
      ensures Valid() && this.timeframes == timeframes && fed == []
    {
      this.timeframes := timeframes;
      baseBarBuffer, fed := map[], [];
      derivedBars := map m | m in timeframes :: None;
      logs := map m | m in timeframes :: [];
    }

    /** Store the base bar, then re-derive every timeframe. With `Valid`, this says what each
        timeframe now shows and all it has emitted. */
    method OnBase1mBar(bar: Bar)
      requires Valid()
      modifies this
      ensures Valid() && fed == old(fed) + [bar]
    {
      ghost var before, after := fed, fed + [bar];
      baseBarBuffer := baseBarBuffer[bar.timestamp := bar];
      assert after[..|before|] == before;
      for i := 0 to |timeframes|
        invariant fed == before && baseBarBuffer == Stored(after)
        invariant Progress(derivedBars, logs, timeframes, i, ShownBy(before), ShownBy(after))
      {
        var m := timeframes[i];
        assert StandsAt(derivedBars, logs, m, ShownBy(before)(m));
        RunExtends(before, bar, m);
        ProgressStep(derivedBars, logs, timeframes, i, ShownBy(before), ShownBy(after));
        AggregateToTimeframe(m, bar, Run(before, m));
      }
      fed := after;
    }

    method AggregateToTimeframe(m: Positive, bar: Bar, ghost s: State)
      requires m in derivedBars && m in logs && derivedBars[m] == s.current
      requires baseBarBuffer == s.base[bar.timestamp := bar]
      modifies this`derivedBars, this`logs
      ensures derivedBars == old(derivedBars)[m := Step(s, bar, m).current]
      ensures logs == old(logs)[m := old(logs)[m] + Emitted(s, bar, m)]
    {
      var start := Window(bar.timestamp, m);
      var current := derivedBars[m];
      var barClosed := current.Some? && current.value.timestamp != start;
      var events := [];
      if barClosed {
        events := [DerivedEvent(m, current.value.(isComplete := true), Close)];
      }
      var next := ComputeAggregatedBar(baseBarBuffer, start, m);
      derivedBars := derivedBars[m := Some(next)];
      if barClosed || current.None? {
        events := events + [DerivedEvent(m, next, Open)];
      } else {
        events := events + [DerivedEvent(m, next, Update)];
      }
      logs := logs[m := logs[m] + events];
    }
  }
}
