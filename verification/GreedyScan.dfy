/** The control flow both back-test simulators share: walk the bars, and when a bar yields a
    trade jump past its exit and sit out a cooldown before looking again. */
module GreedyScan {

  /** What one bar offers: nothing, or a trade that occupies the bars up to `exit`. */
  datatype Pick<+T> = Skip | Take(exit: int, trade: T)

  datatype Fill<+T> = Fill(signal: int, exit: int, trade: T)

  /** A trade never ends before the bar that signalled it, so the walk always moves on. */
  ghost predicate Forward<T(!new)>(pick: int -> Pick<T>) {
    forall t :: pick(t).Take? ==> pick(t).exit >= t
  }

  ghost function Scan<T(!new)>(pick: int -> Pick<T>, t: int, eligible: int, bound: int, cooldown: int): seq<Fill<T>>
    requires Forward(pick)
    decreases bound - t
  {
    if t >= bound then []
    else if t < eligible then Scan(pick, t + 1, eligible, bound, cooldown)
    else match pick(t)
      case Skip => Scan(pick, t + 1, eligible, bound, cooldown)
      case Take(exit, trade) =>
        [Fill(t, exit, trade)] + Scan(pick, exit + 1, exit + cooldown, bound, cooldown)
  }

  /** Where a loop over the bars stands: what it has filled, followed by what is left to walk. */
  ghost predicate Leads<T(!new)>(whole: seq<Fill<T>>, done: seq<Fill<T>>, pick: int -> Pick<T>, t: int, eligible: int,
                                 bound: int, cooldown: int)
    requires Forward(pick)
  {
    whole == done + Scan(pick, t, eligible, bound, cooldown)
  }

  lemma StepOver<T(!new)>(whole: seq<Fill<T>>, done: seq<Fill<T>>, pick: int -> Pick<T>, t: int, eligible: int,
                          bound: int, cooldown: int)
    requires Forward(pick) && t < bound && (t < eligible || pick(t).Skip?)
    requires Leads(whole, done, pick, t, eligible, bound, cooldown)
    ensures Leads(whole, done, pick, t + 1, eligible, bound, cooldown)
  {
  }

  lemma StepFills<T(!new)>(whole: seq<Fill<T>>, done: seq<Fill<T>>, fill: Fill<T>, pick: int -> Pick<T>, eligible: int,
                           bound: int, cooldown: int)
    requires Forward(pick) && eligible <= fill.signal < bound && pick(fill.signal) == Take(fill.exit, fill.trade)
    requires Leads(whole, done, pick, fill.signal, eligible, bound, cooldown)
    ensures Leads(whole, done + [fill], pick, fill.exit + 1, fill.exit + cooldown, bound, cooldown)
  {
    var rest := Scan(pick, fill.exit + 1, fill.exit + cooldown, bound, cooldown);
    assert done + ([fill] + rest) == (done + [fill]) + rest;
  }

  function Max(a: int, b: int): int {
    if a >= b then a else b
  }

  /** The first bar that may signal again after a fill. */
  function FreeAfter<T>(fill: Fill<T>, cooldown: int): int {
    fill.exit + Max(1, cooldown)
  }

  predicate Occupies<T>(fill: Fill<T>, t: int, cooldown: int) {
    fill.signal <= t < FreeAfter(fill, cooldown)
  }

  predicate Offered<T(==)>(fill: Fill<T>, pick: int -> Pick<T>) {
    pick(fill.signal) == Take(fill.exit, fill.trade)
  }

  ghost predicate AllOffered<T(!new)>(fills: seq<Fill<T>>, pick: int -> Pick<T>, start: int, bound: int) {
    forall i :: 0 <= i < |fills| ==> start <= fills[i].signal < bound && fills[i].signal <= fills[i].exit && Offered(fills[i], pick)
  }

  /** Each fill signals only once the one before it has freed the bars. */
  ghost predicate Spaced<T(!new)>(fills: seq<Fill<T>>, cooldown: int) {
    forall i, j :: 0 <= i < j < |fills| ==> FreeAfter(fills[i], cooldown) <= fills[j].signal
  }

  ghost predicate Covered<T(!new)>(fills: seq<Fill<T>>, t: int, cooldown: int) {
    exists i :: 0 <= i < |fills| && Occupies(fills[i], t, cooldown)
  }

  /** No offer is passed over, unless a fill occupies its bar. */
  ghost predicate NothingMissed<T(!new)>(fills: seq<Fill<T>>, pick: int -> Pick<T>, start: int, bound: int,
                                         cooldown: int)
  {
    forall t :: start <= t < bound && pick(t).Take? ==> Covered(fills, t, cooldown)
  }

  /** An independent reading of the walk: every fill is an offered trade on a free bar, and
      every offer on a free bar is filled. */
  ghost predicate IsGreedy<T(!new)>(fills: seq<Fill<T>>, pick: int -> Pick<T>, start: int, bound: int, cooldown: int) {
    && AllOffered(fills, pick, start, bound)
    && Spaced(fills, cooldown)
    && NothingMissed(fills, pick, start, bound, cooldown)
  }

  lemma {:induction false} ScanIsGreedy<T(!new)>(pick: int -> Pick<T>, t: int, eligible: int, bound: int, cooldown: int)
    requires Forward(pick)
    ensures IsGreedy(Scan(pick, t, eligible, bound, cooldown), pick, Max(t, eligible), bound, cooldown)
    decreases bound - t
  {
    if t >= bound {
    } else if t < eligible || pick(t).Skip? {
      ScanIsGreedy(pick, t + 1, eligible, bound, cooldown);
      StartEarlier(Scan(pick, t + 1, eligible, bound, cooldown), pick, Max(t, eligible), Max(t + 1, eligible), bound,
                   cooldown);
    } else {
      var first := Fill(t, pick(t).exit, pick(t).trade);
      var rest := Scan(pick, first.exit + 1, first.exit + cooldown, bound, cooldown);
      assert Scan(pick, t, eligible, bound, cooldown) == [first] + rest;
      ScanIsGreedy(pick, first.exit + 1, first.exit + cooldown, bound, cooldown);
      assert Max(first.exit + 1, first.exit + cooldown) == FreeAfter(first, cooldown);
      GreedyCons(first, rest, pick, t, bound, cooldown);
      assert Max(t, eligible) == t;
    }
  }

  lemma StartEarlier<T(!new)>(fills: seq<Fill<T>>, pick: int -> Pick<T>, start: int, later: int, bound: int, cooldown: int)
    requires start <= later && IsGreedy(fills, pick, later, bound, cooldown)
    requires forall t :: start <= t < later ==> pick(t).Skip?
    ensures IsGreedy(fills, pick, start, bound, cooldown)
  {
  }

  lemma GreedyCons<T(!new)>(first: Fill<T>, rest: seq<Fill<T>>, pick: int -> Pick<T>, start: int, bound: int,
                            cooldown: int)
    requires first.signal == start < bound && first.exit >= start && Offered(first, pick)
    requires IsGreedy(rest, pick, FreeAfter(first, cooldown), bound, cooldown)
    ensures IsGreedy([first] + rest, pick, start, bound, cooldown)
  {
    var fills := [first] + rest;
    assert fills[0] == first && forall i :: 0 < i < |fills| ==> fills[i] == rest[i - 1];
    assert AllOffered(fills, pick, start, bound);
    assert Spaced(fills, cooldown);
    forall t | start <= t < bound && pick(t).Take? ensures Covered(fills, t, cooldown) {
      if t < FreeAfter(first, cooldown) {
        assert Occupies(fills[0], t, cooldown);
      } else {
        assert Covered(rest, t, cooldown);
        var i :| 0 <= i < |rest| && Occupies(rest[i], t, cooldown);
        assert Occupies(fills[i + 1], t, cooldown);
      }
    }
  }

  /** There is only one greedy sequence of fills, so the reading above pins the walk down. */
  lemma {:induction false} GreedyIsUnique<T(!new)>(a: seq<Fill<T>>, b: seq<Fill<T>>, pick: int -> Pick<T>, start: int,
                                                   bound: int, cooldown: int, i: nat)
    requires IsGreedy(a, pick, start, bound, cooldown) && IsGreedy(b, pick, start, bound, cooldown)
    ensures i < |a| <==> i < |b|
    ensures i < |a| ==> a[i] == b[i]
  {
    if i > 0 {
      GreedyIsUnique(a, b, pick, start, bound, cooldown, i - 1);
    }
    assert i < |a| ==> i < |b| && b[i].signal <= a[i].signal by {
      if i < |a| {
        NoLaterSignal(a, b, pick, start, bound, cooldown, i);
      }
    }
    assert i < |b| ==> i < |a| && a[i].signal <= b[i].signal by {
      if i < |b| {
        NoLaterSignal(b, a, pick, start, bound, cooldown, i);
      }
    }
    if i < |a| {
      SameSignalSameFill(a[i], b[i], pick);
    }
  }

  lemma SameSignalSameFill<T(!new)>(x: Fill<T>, y: Fill<T>, pick: int -> Pick<T>)
    requires x.signal == y.signal && Offered(x, pick) && Offered(y, pick)
    ensures x == y
  {
  }

  /** Where two greedy sequences agree just before position `i`, the second has a fill at `i`
      that signals no later than the first's. */
  lemma NoLaterSignal<T(!new)>(a: seq<Fill<T>>, b: seq<Fill<T>>, pick: int -> Pick<T>, start: int, bound: int,
                               cooldown: int, i: nat)
    requires IsGreedy(a, pick, start, bound, cooldown) && IsGreedy(b, pick, start, bound, cooldown)
    requires i < |a| && (i > 0 ==> i - 1 < |b| && a[i - 1] == b[i - 1])
    ensures i < |b| && b[i].signal <= a[i].signal
  {
    var t := a[i].signal;
    assert Offered(a[i], pick);
    assert Covered(b, t, cooldown);
    var j :| 0 <= j < |b| && Occupies(b[j], t, cooldown);
    if i > 0 {
      assert FreeAfter(a[i - 1], cooldown) <= t;
      assert b[i - 1].signal <= t;
    }
    if i < j {
      assert FreeAfter(b[i], cooldown) <= b[j].signal;
    }
  }

  /** Hence a greedy sequence of fills, however it was found, is the walk's. */
  lemma GreedyIsTheScan<T(!new)>(fills: seq<Fill<T>>, pick: int -> Pick<T>, start: int, bound: int, cooldown: int)
    requires Forward(pick) && IsGreedy(fills, pick, start, bound, cooldown)
    ensures fills == Scan(pick, start, start, bound, cooldown)
  {
    var scan := Scan(pick, start, start, bound, cooldown);
    ScanIsGreedy(pick, start, start, bound, cooldown);
    forall j | 0 <= j < |fills| ensures j < |scan| && fills[j] == scan[j] {
      GreedyIsUnique(fills, scan, pick, start, bound, cooldown, j);
    }
    var i := if |fills| < |scan| then |fills| else |scan|;
    GreedyIsUnique(fills, scan, pick, start, bound, cooldown, i);
  }

  /** The walk only looks at offers below its bound: with more bars it makes the same fills
      first, and every further fill is signalled at or after the old bound. */
  lemma {:induction false} ScanExtends<T(!new)>(short: int -> Pick<T>, long: int -> Pick<T>, t: int, eligible: int,
                                                bound: int, further: int, cooldown: int)
    requires Forward(short) && Forward(long) && bound <= further
    requires forall u :: t <= u < bound ==> short(u) == long(u)
    ensures var a, b := Scan(short, t, eligible, bound, cooldown), Scan(long, t, eligible, further, cooldown);
            && a <= b
            && forall i :: |a| <= i < |b| ==> b[i].signal >= bound
    decreases bound - t
  {
    if t >= bound {
      ScanIsGreedy(long, t, eligible, further, cooldown);
    } else if t < eligible || short(t).Skip? {
      ScanExtends(short, long, t + 1, eligible, bound, further, cooldown);
    } else {
      assert short(t) == long(t);
      var exit := short(t).exit;
      ScanExtends(short, long, exit + 1, exit + cooldown, bound, further, cooldown);
    }
  }
}
