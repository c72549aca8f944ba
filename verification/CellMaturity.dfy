/** The evidence table: cells of complete outcomes ranked by independent events, and the
    ladder of evidence states read off them. */
module CellMaturity {
  import opened AsofJoin
  import opened Basics
  import opened EdgeMap
  import opened Grid

  const MEAN_UNIT: real := 0.0001

  /** One reaction event, whichever outcomes it was attached to. */
  type EventKey = (string, string, string)

  datatype CellRow = CellRow(cell: Cell, events: set<EventKey>, samples: seq<Joined>) {
    function EventCount(): nat {
      |events|
    }
  }

  datatype Direction = Positive | Negative | Flat | NoMean

  datatype State = NoReplicatedCells | Exploratory | Emerging | Evidenced | Structural

  function EventOf(j: Joined): EventKey
    requires j.reaction.Some?
  {
    var r := j.reaction.value;
    (r.venue, r.instrument, r.stamp)
  }

  function MatchesPrefixes(o: OutcomeRow, prefixes: seq<string>): bool {
    prefixes == [] || exists i :: 0 <= i < |prefixes| && prefixes[i] <= o.decisionId
  }

  function Filtered(outcomes: seq<OutcomeRow>, prefixes: seq<string>): seq<OutcomeRow> {
    if outcomes == [] then []
    else
      var last := outcomes[|outcomes| - 1];
      Filtered(outcomes[..|outcomes| - 1], prefixes) + (if MatchesPrefixes(last, prefixes) then [last] else [])
  }

  // ------------------------------------------------------------ the table of cells

  ghost predicate AllComplete(js: seq<Joined>) {
    forall i :: 0 <= i < |js| ==> HasBoth(js[i])
  }

  function Events(js: seq<Joined>): set<EventKey> {
    set i | 0 <= i < |js| && HasBoth(js[i]) :: EventOf(js[i])
  }

  /** The cells in order of first appearance. */
  function CellKeys(js: seq<Joined>): seq<Cell> {
    if js == [] then []
    else
      var before, cell := CellKeys(js[..|js| - 1]), CellOf(js[|js| - 1]);
      if cell in before then before else before + [cell]
  }

  function RowOf(js: seq<Joined>, cell: Cell): CellRow {
    CellRow(cell, Events(Bucket(js, cell)), Bucket(js, cell))
  }

  function CellTable(js: seq<Joined>): seq<CellRow> {
    var keys := CellKeys(js);
    seq(|keys|, i requires 0 <= i < |keys| => RowOf(js, keys[i]))
  }

  /** What the join loop keeps: the buckets and their order of appearance, over the complete rows. */
  ghost predicate IsCellIndex(table: map<Cell, seq<Joined>>, keys: seq<Cell>, js: seq<Joined>) {
    IsTable(table, js) && keys == CellKeys(js)
  }

  function AddKey(keys: seq<Cell>, j: Joined): seq<Cell> {
    if CellOf(j) in keys then keys else keys + [CellOf(j)]
  }

  lemma CellIndexStep(table: map<Cell, seq<Joined>>, keys: seq<Cell>, js: seq<Joined>, j: Joined)
    requires IsCellIndex(table, keys, js)
    ensures IsCellIndex(AddTo(table, j), AddKey(keys, j), js + [j])
  {
    TableStep(table, js, j);
    assert (js + [j])[..|js|] == js;
  }

  /** The join loop: only rows with both a reaction and a regime make samples. */
  method JoinCells(s: Streams, kept: seq<OutcomeRow>)
    returns (table: map<Cell, seq<Joined>>, keys: seq<Cell>, withBoth: nat)
    ensures IsCellIndex(table, keys, Complete(JoinAll(kept, s)))
    ensures withBoth == |Complete(JoinAll(kept, s))|
  {
    var reactions := IndexByKey(s.reactions);
    var regimes := IndexByKey(s.regimes);
    table, keys, withBoth := map[], [], 0;
    ghost var joined: seq<Joined> := [];
    for i := 0 to |kept|
      invariant joined == JoinAll(kept[..i], s)
      invariant IsCellIndex(table, keys, Complete(joined)) && withBoth == |Complete(joined)|
    {
      var row := JoinRow(reactions, regimes, s, kept[i]);
      JoinStep(kept, i, s);
      if row.Some? {
        var j := row.value;
        CompleteStep(joined, j);
        if HasBoth(j) {
          CellIndexStep(table, keys, Complete(joined), j);
          table, keys, withBoth := AddTo(table, j), AddKey(keys, j), withBoth + 1;
        }
        joined := joined + [j];
      }
    }
    assert kept[..|kept|] == kept;
  }

  method FilterOutcomes(outcomes: seq<OutcomeRow>, prefixes: seq<string>) returns (kept: seq<OutcomeRow>)
    ensures kept == Filtered(outcomes, prefixes)
  {
    kept := [];
    for i := 0 to |outcomes|
      invariant kept == Filtered(outcomes[..i], prefixes)
    {
      assert outcomes[..i + 1][..i] == outcomes[..i];
      if MatchesPrefixes(outcomes[i], prefixes) {
        kept := kept + [outcomes[i]];
      }
    }
    assert outcomes[..|outcomes|] == outcomes;
  }

  method BuildCells(s: Streams, outcomes: seq<OutcomeRow>, prefixes: seq<string>)
    returns (cells: seq<CellRow>, withBoth: nat)
    ensures var js := Complete(JoinAll(Filtered(outcomes, prefixes), s));
            cells == CellTable(js) && withBoth == |js|
  {
    var kept := FilterOutcomes(outcomes, prefixes);
    var table, keys;
    table, keys, withBoth := JoinCells(s, kept);
    ghost var js := Complete(JoinAll(kept, s));
    cells := [];
    for i := 0 to |keys|
      invariant |cells| == i && forall k :: 0 <= k < i ==> cells[k] == RowOf(js, keys[k])
    {
      KeysHaveRows(js, i);
      var rows := table[keys[i]];
      cells := cells + [CellRow(keys[i], Events(rows), rows)];
    }
  }

  lemma {:induction false} KeysAreDistinct(js: seq<Joined>)
    ensures forall i, k :: 0 <= i < k < |CellKeys(js)| ==> CellKeys(js)[i] != CellKeys(js)[k]
    ensures forall cell :: cell in CellKeys(js) <==> Bucket(js, cell) != []
  {
    if js != [] {
      KeysAreDistinct(js[..|js| - 1]);
    }
  }

  lemma KeysHaveRows(js: seq<Joined>, i: nat)
    requires i < |CellKeys(js)|
    ensures Bucket(js, CellKeys(js)[i]) != []
  {
    KeysAreDistinct(js);
    assert CellKeys(js)[i] in CellKeys(js);
  }

  // ------------------------------------------------------------ agreement with the edge map

  function SampleTotal(js: seq<Joined>, keys: seq<Cell>): nat {
    if keys == [] then 0 else SampleTotal(js, keys[..|keys| - 1]) + |Bucket(js, keys[|keys| - 1])|
  }

  lemma {:induction false} TotalUnchanged(js: seq<Joined>, j: Joined, keys: seq<Cell>)
    requires CellOf(j) !in keys
    ensures SampleTotal(js + [j], keys) == SampleTotal(js, keys)
  {
    if keys != [] {
      TotalUnchanged(js, j, keys[..|keys| - 1]);
      assert (js + [j])[..|js|] == js;
      assert keys[|keys| - 1] in keys;
    }
  }

  lemma {:induction false} TotalGrowsByOne(js: seq<Joined>, j: Joined, keys: seq<Cell>)
    requires CellOf(j) in keys
    requires forall i, k :: 0 <= i < k < |keys| ==> keys[i] != keys[k]
    ensures SampleTotal(js + [j], keys) == SampleTotal(js, keys) + 1
  {
    var init, last := keys[..|keys| - 1], keys[|keys| - 1];
    assert (js + [j])[..|js|] == js;
    assert keys == init + [last];
    if last == CellOf(j) {
      assert last !in init;
      TotalUnchanged(js, j, init);
    } else {
      TotalGrowsByOne(js, j, init);
    }
  }

  /** The cells share out the complete rows: their samples sum to the rows with both labels. */
  lemma {:induction false} SamplesSumToComplete(js: seq<Joined>)
    ensures SampleTotal(js, CellKeys(js)) == |js|
  {
    if js != [] {
      var init, j := js[..|js| - 1], js[|js| - 1];
      assert js == init + [j];
      SamplesSumToComplete(init);
      KeysAreDistinct(init);
      var keys := CellKeys(init);
      if CellOf(j) in keys {
        TotalGrowsByOne(init, j, keys);
      } else {
        TotalUnchanged(init, j, keys);
        assert (keys + [CellOf(j)])[..|keys|] == keys;
        assert Bucket(js, CellOf(j)) == Bucket(init, CellOf(j)) + [j];
      }
    }
  }

  lemma CellsAreTheBuckets(js: seq<Joined>, cell: Cell)
    ensures Bucket(js, cell) != [] <==> exists i :: 0 <= i < |CellTable(js)| && CellTable(js)[i].cell == cell
  {
    var keys, cells := CellKeys(js), CellTable(js);
    KeysAreDistinct(js);
    if Bucket(js, cell) != [] {
      var i :| 0 <= i < |keys| && keys[i] == cell;
      assert cells[i].cell == cell;
    }
    if i :| 0 <= i < |cells| && cells[i].cell == cell {
      assert keys[i] in keys;
    }
  }

  /** For known labels the edge map and the evidence table are built from the same rows, in
      the same order; and a bucket has rows exactly if the table has a row for it. (No
      prefix filter: the edge map has none.) */
  lemma TablesAgree(s: Streams, outcomes: seq<OutcomeRow>, cell: Cell)
    ensures Filtered(outcomes, []) == outcomes
    ensures var joined := JoinAll(outcomes, s);
            var cells := CellTable(Complete(joined));
            && (cell.0 != UNKNOWN && cell.1 != UNKNOWN ==> Bucket(joined, cell) == Bucket(Complete(joined), cell))
            && (forall i :: 0 <= i < |cells| ==> cells[i].samples == Bucket(Complete(joined), cells[i].cell))
            && (Bucket(Complete(joined), cell) != [] <==> exists i :: 0 <= i < |cells| && cells[i].cell == cell)
            && SampleTotal(Complete(joined), CellKeys(Complete(joined))) == |Complete(joined)|
  {
    NoFilter(outcomes);
    LabelledBucketsAreComplete(JoinAll(outcomes, s), cell);
    SamplesSumToComplete(Complete(JoinAll(outcomes, s)));
    CellsAreTheBuckets(Complete(JoinAll(outcomes, s)), cell);
  }

  lemma {:induction false} NoFilter(outcomes: seq<OutcomeRow>)
    ensures Filtered(outcomes, []) == outcomes
  {
    if outcomes != [] {
      NoFilter(outcomes[..|outcomes| - 1]);
      assert outcomes == outcomes[..|outcomes| - 1] + [outcomes[|outcomes| - 1]];
    }
  }

  // ------------------------------------------------------------ the ladder

  function SumPnl(js: seq<Joined>): real {
    if js == [] then 0.0 else SumPnl(js[..|js| - 1]) + js[|js| - 1].pnl
  }

  /** Direction of the reported mean, which is rounded to four decimals first. */
  function PnlDirection(c: CellRow): Direction {
    if |c.samples| == 0 then NoMean
    else
      var mean := RoundTo(SumPnl(c.samples) / |c.samples| as real, MEAN_UNIT);
      if mean > 0.0 then Positive else if mean < 0.0 then Negative else Flat
  }

  predicate Mature(c: CellRow, threshold: int) {
    c.EventCount() >= threshold
  }

  function CountAtLeast(cells: seq<CellRow>, n: int): nat {
    if cells == [] then 0
    else CountAtLeast(cells[..|cells| - 1], n) + (if cells[|cells| - 1].EventCount() >= n then 1 else 0)
  }

  type GroupKey = (string, Direction)

  function GroupOf(c: CellRow): GroupKey {
    (c.cell.1, PnlDirection(c))
  }

  /** The mature cells of one regime and direction. */
  function MatureGroup(cells: seq<CellRow>, threshold: int, g: GroupKey): seq<CellRow> {
    if cells == [] then []
    else
      var last := cells[|cells| - 1];
      MatureGroup(cells[..|cells| - 1], threshold, g) +
      (if Mature(last, threshold) && GroupOf(last) == g then [last] else [])
  }

  /** Grouping the mature cells; a group of two or more is coherent evidence. */
  method CoherentMatureGroups(cells: seq<CellRow>, threshold: int) returns (coherent: map<GroupKey, seq<CellRow>>)
    ensures forall g :: g in coherent <==> |MatureGroup(cells, threshold, g)| >= 2
    ensures forall g :: g in coherent ==> coherent[g] == MatureGroup(cells, threshold, g)
  {
    var groups: map<GroupKey, seq<CellRow>> := map[];
    for i := 0 to |cells|
      invariant forall g :: g in groups <==> MatureGroup(cells[..i], threshold, g) != []
      invariant forall g :: g in groups ==> groups[g] == MatureGroup(cells[..i], threshold, g)
    {
      assert cells[..i + 1][..i] == cells[..i];
      if cells[i].EventCount() >= threshold {
        var g := GroupOf(cells[i]);
        groups := groups[g := (if g in groups then groups[g] else []) + [cells[i]]];
      }
    }
    assert cells[..|cells|] == cells;
    coherent := map g | g in groups && |groups[g]| >= 2 :: groups[g];
  }

  ghost predicate HasCoherentGroup(cells: seq<CellRow>, threshold: int) {
    exists g :: |MatureGroup(cells, threshold, g)| >= 2
  }

  ghost function EvidenceState(cells: seq<CellRow>, withBoth: int, threshold: int): State {
    if withBoth <= 0 || cells == [] then NoReplicatedCells
    else if HasCoherentGroup(cells, threshold) then Structural
    else if CountAtLeast(cells, threshold) > 0 then Evidenced
    else if CountAtLeast(cells, 2) > 0 then Emerging
    else Exploratory
  }

  method ClassifyEvidence(cells: seq<CellRow>, withBoth: int, threshold: int) returns (state: State)
    ensures state == EvidenceState(cells, withBoth, threshold)
  {
    var replicated, mature := 0, 0;
    for i := 0 to |cells|
      invariant replicated == CountAtLeast(cells[..i], 2) && mature == CountAtLeast(cells[..i], threshold)
    {
      assert cells[..i + 1][..i] == cells[..i];
      replicated := replicated + if cells[i].EventCount() >= 2 then 1 else 0;
      mature := mature + if cells[i].EventCount() >= threshold then 1 else 0;
    }
    assert cells[..|cells|] == cells;
    var coherent := CoherentMatureGroups(cells, threshold);
    if withBoth <= 0 || cells == [] {
      state := NoReplicatedCells;
    } else if |coherent| > 0 {
      var g :| g in coherent;
      state := Structural;
    } else {
      assert forall g :: g !in coherent;
      state := if mature > 0 then Evidenced else if replicated > 0 then Emerging else Exploratory;
    }
  }

  // ------------------------------------------------------------ monotonicity

  function Rank(state: State): nat {
    match state
    case NoReplicatedCells => 0
    case Exploratory => 1
    case Emerging => 2
    case Evidenced => 3
    case Structural => 3
  }

  /** The state of an outcome log against fixed streams. */
  ghost function Evidence(s: Streams, outcomes: seq<OutcomeRow>, prefixes: seq<string>, threshold: int): State {
    var js := Complete(JoinAll(Filtered(outcomes, prefixes), s));
    EvidenceState(CellTable(js), |js|, threshold)
  }

  lemma {:induction false} BucketMember(js: seq<Joined>, cell: Cell, j: Joined)
    ensures j in Bucket(js, cell) <==> j in js && CellOf(j) == cell
  {
    if js != [] {
      BucketMember(js[..|js| - 1], cell, j);
      assert js == js[..|js| - 1] + [js[|js| - 1]];
    }
  }

  lemma {:induction false} CompleteMember(js: seq<Joined>, j: Joined)
    ensures j in Complete(js) <==> j in js && HasBoth(j)
  {
    if js != [] {
      CompleteMember(js[..|js| - 1], j);
      assert js == js[..|js| - 1] + [js[|js| - 1]];
    }
  }

  lemma {:induction false} FilteredMember(outcomes: seq<OutcomeRow>, prefixes: seq<string>, o: OutcomeRow)
    ensures o in Filtered(outcomes, prefixes) <==> o in outcomes && MatchesPrefixes(o, prefixes)
  {
    if outcomes != [] {
      FilteredMember(outcomes[..|outcomes| - 1], prefixes, o);
      assert outcomes == outcomes[..|outcomes| - 1] + [outcomes[|outcomes| - 1]];
    }
  }

  /** The prefix filter keeps an outcome if its id starts with one of the prefixes, or there are none. */
  lemma FilterKeeps(outcomes: seq<OutcomeRow>, prefixes: seq<string>, o: OutcomeRow)
    ensures o in Filtered(outcomes, prefixes)
            <==> o in outcomes && (prefixes == [] || exists prefix ::
                   prefix in prefixes && |prefix| <= |o.decisionId| && o.decisionId[..|prefix|] == prefix)
  {
    FilteredMember(outcomes, prefixes, o);
    if prefixes != [] && MatchesPrefixes(o, prefixes) {
      var i :| 0 <= i < |prefixes| && prefixes[i] <= o.decisionId;
      assert prefixes[i] in prefixes && o.decisionId[..|prefixes[i]|] == prefixes[i];
    }
  }

  lemma {:induction false} JoinMember(outcomes: seq<OutcomeRow>, s: Streams, j: Joined)
    ensures j in JoinAll(outcomes, s) <==> j.row in outcomes && JoinOne(j.row, s) == Some(j)
  {
    if outcomes != [] {
      JoinMember(outcomes[..|outcomes| - 1], s, j);
      assert outcomes == outcomes[..|outcomes| - 1] + [outcomes[|outcomes| - 1]];
    }
  }

  ghost predicate Within<T(!new)>(a: seq<T>, b: seq<T>) {
    forall x :: x in a ==> x in b
  }

  lemma MoreOutcomesMoreRows(s: Streams, a: seq<OutcomeRow>, b: seq<OutcomeRow>, prefixes: seq<string>)
    requires Within(a, b)
    ensures Within(Complete(JoinAll(Filtered(a, prefixes), s)), Complete(JoinAll(Filtered(b, prefixes), s)))
  {
    var fa, fb := Filtered(a, prefixes), Filtered(b, prefixes);
    var ja, jb := JoinAll(fa, s), JoinAll(fb, s);
    forall j | j in Complete(ja) ensures j in Complete(jb) {
      CompleteMember(ja, j);
      JoinMember(fa, s, j);
      FilteredMember(a, prefixes, j.row);
      FilteredMember(b, prefixes, j.row);
      JoinMember(fb, s, j);
      CompleteMember(jb, j);
    }
  }

  lemma {:induction false} SubsetSize<T>(a: set<T>, b: set<T>)
    requires a <= b
    ensures |a| <= |b|
  {
    if a != {} {
      var x :| x in a;
      SubsetSize(a - {x}, b - {x});
    }
  }

  /** A cell's independent events only ever accumulate. */
  lemma EventsAccumulate(a: seq<Joined>, b: seq<Joined>, cell: Cell)
    requires Within(a, b)
    ensures |Events(Bucket(a, cell))| <= |Events(Bucket(b, cell))|
  {
    var ba, bb := Bucket(a, cell), Bucket(b, cell);
    forall e | e in Events(ba) ensures e in Events(bb) {
      var i :| 0 <= i < |ba| && HasBoth(ba[i]) && EventOf(ba[i]) == e;
      BucketMember(a, cell, ba[i]);
      BucketMember(b, cell, ba[i]);
      var k :| 0 <= k < |bb| && bb[k] == ba[i];
    }
    SubsetSize(Events(ba), Events(bb));
  }

  lemma {:induction false} CountPositive(cells: seq<CellRow>, n: int)
    ensures CountAtLeast(cells, n) > 0 <==> exists i :: 0 <= i < |cells| && cells[i].EventCount() >= n
  {
    if cells != [] {
      CountPositive(cells[..|cells| - 1], n);
      assert forall i :: 0 <= i < |cells| - 1 ==> cells[i] == cells[..|cells| - 1][i];
    }
  }

  /** Some cell of `js` has `n` independent events. */
  ghost predicate Reaches(js: seq<Joined>, n: int) {
    exists cell :: Bucket(js, cell) != [] && |Events(Bucket(js, cell))| >= n
  }

  lemma TableReaches(js: seq<Joined>, n: int)
    ensures CountAtLeast(CellTable(js), n) > 0 <==> Reaches(js, n)
  {
    var cells, keys := CellTable(js), CellKeys(js);
    CountPositive(cells, n);
    KeysAreDistinct(js);
    if Reaches(js, n) {
      var cell :| Bucket(js, cell) != [] && |Events(Bucket(js, cell))| >= n;
      var i :| 0 <= i < |keys| && keys[i] == cell;
      assert cells[i].EventCount() >= n;
    }
    if CountAtLeast(cells, n) > 0 {
      var i :| 0 <= i < |cells| && cells[i].EventCount() >= n;
      assert keys[i] in keys;
    }
  }

  lemma {:induction false} GroupMembers(cells: seq<CellRow>, threshold: int, g: GroupKey)
    ensures forall c :: c in MatureGroup(cells, threshold, g) ==> c in cells && Mature(c, threshold) && GroupOf(c) == g
  {
    if cells != [] {
      GroupMembers(cells[..|cells| - 1], threshold, g);
    }
  }

  /** The rank depends only on how many events the best cell has. */
  lemma RankIs(js: seq<Joined>, threshold: int)
    requires threshold >= 1
    ensures Rank(EvidenceState(CellTable(js), |js|, threshold))
            == if js == [] then 0 else if Reaches(js, threshold) then 3 else if Reaches(js, 2) then 2 else 1
  {
    var cells := CellTable(js);
    TableReaches(js, threshold);
    TableReaches(js, 2);
    if js != [] {
      var last := js[|js| - 1];
      assert last in js;
      BucketMember(js, CellOf(last), last);
      KeysAreDistinct(js);
    }
    if HasCoherentGroup(cells, threshold) {
      var g :| |MatureGroup(cells, threshold, g)| >= 2;
      GroupMembers(cells, threshold, g);
      var c := MatureGroup(cells, threshold, g)[0];
      assert c in cells && Mature(c, threshold);
      CountPositive(cells, threshold);
    }
  }

  lemma ReachesAccumulates(a: seq<Joined>, b: seq<Joined>, n: int)
    requires Within(a, b) && Reaches(a, n)
    ensures Reaches(b, n)
  {
    var cell :| Bucket(a, cell) != [] && |Events(Bucket(a, cell))| >= n;
    EventsAccumulate(a, b, cell);
    var j := Bucket(a, cell)[0];
    BucketMember(a, cell, j);
    BucketMember(b, cell, j);
  }

  /** Adding outcomes, anywhere in the log, never lowers the evidence; only the two top states
      may trade places, because the means behind their directions move. */
  lemma EvidenceIsMonotone(s: Streams, a: seq<OutcomeRow>, b: seq<OutcomeRow>, prefixes: seq<string>, threshold: int)
    requires threshold >= 1 && Within(a, b)
    ensures Rank(Evidence(s, a, prefixes, threshold)) <= Rank(Evidence(s, b, prefixes, threshold))
  {
    var ja := Complete(JoinAll(Filtered(a, prefixes), s));
    var jb := Complete(JoinAll(Filtered(b, prefixes), s));
    MoreOutcomesMoreRows(s, a, b, prefixes);
    RankIs(ja, threshold);
    RankIs(jb, threshold);
    if ja != [] {
      assert ja[0] in jb;
    }
    if Reaches(ja, threshold) {
      ReachesAccumulates(ja, jb, threshold);
    }
    if Reaches(ja, 2) {
      ReachesAccumulates(ja, jb, 2);
    }
  }

  // ------------------------------------------------------------ what the states and gates say

  lemma {:induction false} GroupPositions(cells: seq<CellRow>, threshold: int, g: GroupKey)
    ensures |MatureGroup(cells, threshold, g)| >= 1 ==>
              exists i :: 0 <= i < |cells| && Mature(cells[i], threshold) && GroupOf(cells[i]) == g
    ensures |MatureGroup(cells, threshold, g)| >= 2 ==> HasPair(cells, threshold, g)
  {
    if cells != [] {
      var init, last := cells[..|cells| - 1], cells[|cells| - 1];
      GroupPositions(init, threshold, g);
      assert forall i :: 0 <= i < |init| ==> cells[i] == init[i];
      if |MatureGroup(cells, threshold, g)| >= 2 {
        if HasPair(init, threshold, g) {
          var i, k :| 0 <= i < k < |init| && IsPair(init, threshold, g, i, k);
          assert IsPair(cells, threshold, g, i, k);
        } else {
          var i :| 0 <= i < |init| && Mature(init[i], threshold) && GroupOf(init[i]) == g;
          assert IsPair(cells, threshold, g, i, |init|);
        }
      }
    }
  }

  predicate IsPair(cells: seq<CellRow>, threshold: int, g: GroupKey, i: int, k: int)
    requires 0 <= i < |cells| && 0 <= k < |cells|
  {
    && Mature(cells[i], threshold) && GroupOf(cells[i]) == g
    && Mature(cells[k], threshold) && GroupOf(cells[k]) == g
  }

  ghost predicate HasPair(cells: seq<CellRow>, threshold: int, g: GroupKey) {
    exists i, k :: 0 <= i < k < |cells| && IsPair(cells, threshold, g, i, k)
  }

  /** The mean profit of some rows, rounded to four decimals. */
  ghost predicate IsMean(mean: real, js: seq<Joined>) {
    js != [] && exists exact: real :: Averages(exact, SumPnl(js), |js|) && mean == RoundTo(exact, 0.0001)
  }

  predicate Averages(exact: real, sum: real, n: nat) {
    exact * n as real == sum
  }

  /** The sum is that of the rows' profits: bounds on all of them bound it. */
  lemma {:induction false} SumPnlIsBounded(js: seq<Joined>, least: real, most: real)
    requires forall i :: 0 <= i < |js| ==> least <= js[i].pnl <= most
    ensures least * |js| as real <= SumPnl(js) <= most * |js| as real
  {
    if js != [] {
      SumPnlIsBounded(js[..|js| - 1], least, most);
      OneMoreTimes(least, (|js| - 1) as real, |js| as real);
      OneMoreTimes(most, (|js| - 1) as real, |js| as real);
    }
  }

  lemma MeanIs(c: CellRow)
    requires c.samples != []
    ensures exists mean: real :: IsMean(mean, c.samples) && PnlDirection(c) ==
              if mean > 0.0 then Positive else if mean < 0.0 then Negative else Flat
  {
    var n := |c.samples| as real;
    var exact := SumPnl(c.samples) / n;
    DivThenTimes(SumPnl(c.samples), n);
    assert Averages(exact, SumPnl(c.samples), |c.samples|);
    assert IsMean(RoundTo(exact, 0.0001), c.samples);
  }

  lemma MeansAlike(a: real, b: real, js: seq<Joined>)
    requires IsMean(a, js) && IsMean(b, js)
    ensures a == b
  {
    hide RoundTo, SumPnl;
    var x: real :| Averages(x, SumPnl(js), |js|) && a == RoundTo(x, 0.0001);
    var y: real :| Averages(y, SumPnl(js), |js|) && b == RoundTo(y, 0.0001);
    SameFactor(x, y, |js| as real, SumPnl(js));
  }

  /** Two cells with the events asked for, of the same regime, whose rounded means are both
      positive, both negative or both zero. */
  ghost predicate Cohere(a: CellRow, b: CellRow, threshold: int) {
    && |a.events| >= threshold && |b.events| >= threshold
    && a.cell.1 == b.cell.1
    && exists x: real, y: real :: IsMean(x, a.samples) && IsMean(y, b.samples)
                                  && (x > 0.0 <==> y > 0.0) && (x < 0.0 <==> y < 0.0)
  }

  lemma PairsCohere(cells: seq<CellRow>, threshold: int, i: int, k: int)
    requires 0 <= i < |cells| && 0 <= k < |cells| && cells[i].samples != [] && cells[k].samples != []
    ensures Cohere(cells[i], cells[k], threshold) <==> IsPair(cells, threshold, GroupOf(cells[i]), i, k)
  {
    var a, b := cells[i], cells[k];
    MeanIs(a);
    MeanIs(b);
    var x: real :| IsMean(x, a.samples)
                   && PnlDirection(a) == if x > 0.0 then Positive else if x < 0.0 then Negative else Flat;
    var y: real :| IsMean(y, b.samples)
                   && PnlDirection(b) == if y > 0.0 then Positive else if y < 0.0 then Negative else Flat;
    if Cohere(a, b, threshold) {
      var u: real, v: real :| IsMean(u, a.samples) && IsMean(v, b.samples)
                              && (u > 0.0 <==> v > 0.0) && (u < 0.0 <==> v < 0.0);
      MeansAlike(u, x, a.samples);
      MeansAlike(v, y, b.samples);
    }
  }

  /** The members of a group sit at positions of their own. */
  lemma {:induction false} PairMakesGroup(cells: seq<CellRow>, threshold: int, g: GroupKey)
    ensures (exists i :: 0 <= i < |cells| && Mature(cells[i], threshold) && GroupOf(cells[i]) == g) ==>
              |MatureGroup(cells, threshold, g)| >= 1
    ensures HasPair(cells, threshold, g) ==> |MatureGroup(cells, threshold, g)| >= 2
  {
    if cells != [] {
      var init, last := cells[..|cells| - 1], cells[|cells| - 1];
      PairMakesGroup(init, threshold, g);
      if i :| 0 <= i < |cells| && Mature(cells[i], threshold) && GroupOf(cells[i]) == g {
        assert i < |init| ==> init[i] == cells[i];
      }
      if HasPair(cells, threshold, g) {
        var i, k :| 0 <= i < k < |cells| && IsPair(cells, threshold, g, i, k);
        assert init[i] == cells[i];
        if k < |init| {
          assert IsPair(init, threshold, g, i, k);
        }
      }
    }
  }

  /** STRUCTURAL is exactly two different cells that cohere. */
  lemma StructuralNeedsTwoCells(js: seq<Joined>, threshold: int)
    ensures var cells := CellTable(js);
            EvidenceState(cells, |js|, threshold) == Structural
            <==> exists i, k :: 0 <= i < k < |cells| && cells[i].cell != cells[k].cell
                                && Cohere(cells[i], cells[k], threshold)
  {
    var cells := CellTable(js);
    KeysAreDistinct(js);
    forall i | 0 <= i < |cells| ensures cells[i].samples != [] && cells[i].cell == CellKeys(js)[i] {
      KeysHaveRows(js, i);
    }
    if EvidenceState(cells, |js|, threshold) == Structural {
      var g :| |MatureGroup(cells, threshold, g)| >= 2;
      GroupPositions(cells, threshold, g);
      var i, k :| 0 <= i < k < |cells| && IsPair(cells, threshold, g, i, k);
      PairsCohere(cells, threshold, i, k);
      assert cells[i].cell != cells[k].cell;
    }
    if i, k :| 0 <= i < k < |cells| && Cohere(cells[i], cells[k], threshold) {
      PairsCohere(cells, threshold, i, k);
      PairMakesGroup(cells, threshold, GroupOf(cells[i]));
    }
  }

  function Candidates(cells: seq<CellRow>, least: int, most: Option<int>): seq<CellRow> {
    if cells == [] then []
    else
      var last := cells[|cells| - 1];
      Candidates(cells[..|cells| - 1], least, most) +
      (if last.EventCount() < least || (most.Some? && last.EventCount() > most.value) then [] else [last])
  }

  /** Immature cells of a regime that already has a mature one. */
  function StructuralCandidates(cells: seq<CellRow>, all: seq<CellRow>, threshold: int): seq<CellRow> {
    if cells == [] then []
    else
      var last := cells[|cells| - 1];
      StructuralCandidates(cells[..|cells| - 1], all, threshold) +
      (if !Mature(last, threshold) && exists i :: 0 <= i < |all| && Mature(all[i], threshold)
                                                  && all[i].cell.1 == last.cell.1 then [last] else [])
  }

  /** The cells listed by the gate to the next state. */
  function NextGate(state: State, cells: seq<CellRow>, threshold: int): seq<CellRow> {
    match state
    case NoReplicatedCells => []
    case Exploratory => Candidates(cells, 1, Some(1))
    case Emerging => Candidates(cells, 2, Some(threshold - 1))
    case Evidenced => StructuralCandidates(cells, cells, threshold)
    case Structural => Candidates(cells, threshold, None)
  }

  lemma {:induction false} CandidatesMember(cells: seq<CellRow>, least: int, most: Option<int>, c: CellRow)
    ensures c in Candidates(cells, least, most) <==>
              c in cells && least <= c.EventCount() && (most.Some? ==> c.EventCount() <= most.value)
  {
    if cells != [] {
      CandidatesMember(cells[..|cells| - 1], least, most, c);
      assert cells == cells[..|cells| - 1] + [cells[|cells| - 1]];
    }
  }

  lemma {:induction false} AllCandidates(cells: seq<CellRow>, least: int, most: Option<int>)
    requires forall i :: 0 <= i < |cells| ==>
               least <= cells[i].EventCount() && (most.Some? ==> cells[i].EventCount() <= most.value)
    ensures Candidates(cells, least, most) == cells
  {
    if cells != [] {
      var init, last := cells[..|cells| - 1], cells[|cells| - 1];
      assert cells == init + [last];
      assert forall i :: 0 <= i < |init| ==> init[i] == cells[i];
      AllCandidates(init, least, most);
    }
  }

  lemma EveryCellHasAnEvent(js: seq<Joined>, i: nat)
    requires AllComplete(js) && i < |CellTable(js)|
    ensures CellTable(js)[i].EventCount() >= 1
  {
    KeysHaveRows(js, i);
    var rows := Bucket(js, CellKeys(js)[i]);
    BucketMember(js, CellKeys(js)[i], rows[0]);
    var k :| 0 <= k < |js| && js[k] == rows[0];
    assert EventOf(rows[0]) in Events(rows);
  }

  /** Some cell of the same regime has the events asked for. */
  ghost predicate HasMatureNeighbour(c: CellRow, cells: seq<CellRow>, threshold: int) {
    exists other :: other in cells && |other.events| >= threshold && other.cell.1 == c.cell.1
  }

  lemma {:induction false} StructuralMember(cells: seq<CellRow>, all: seq<CellRow>, threshold: int, c: CellRow)
    ensures c in StructuralCandidates(cells, all, threshold)
            <==> c in cells && |c.events| < threshold && HasMatureNeighbour(c, all, threshold)
  {
    if cells != [] {
      var last := cells[|cells| - 1];
      StructuralMember(cells[..|cells| - 1], all, threshold, c);
      assert cells == cells[..|cells| - 1] + [last];
      if other :| other in all && |other.events| >= threshold && other.cell.1 == last.cell.1 {
        var i :| 0 <= i < |all| && all[i] == other;
        assert Mature(all[i], threshold);
      }
    }
  }

  lemma ReplicatedAreListed(cells: seq<CellRow>, threshold: int)
    requires exists i :: 0 <= i < |cells| && cells[i].EventCount() >= 2
    requires forall i :: 0 <= i < |cells| ==> cells[i].EventCount() < threshold
    ensures var gate := Candidates(cells, 2, Some(threshold - 1));
            gate != [] && forall c :: c in gate <==> c in cells && 2 <= c.EventCount()
  {
    var gate := Candidates(cells, 2, Some(threshold - 1));
    forall c ensures c in gate <==> c in cells && 2 <= c.EventCount() {
      CandidatesMember(cells, 2, Some(threshold - 1), c);
    }
    var i :| 0 <= i < |cells| && cells[i].EventCount() >= 2;
    assert cells[i] in gate;
  }

  /** What the gates promise: nothing to do before the first cell; every cell listed while none
      has replicated; and never an empty list while waiting for the first mature cell. */
  lemma GatesOffer(js: seq<Joined>, threshold: int)
    requires threshold >= 1 && AllComplete(js)
    ensures var cells := CellTable(js);
            var state := EvidenceState(cells, |js|, threshold);
            && (state == Exploratory ==> NextGate(state, cells, threshold) == cells && cells != [])
            && (state == Emerging || state == Structural ==> NextGate(state, cells, threshold) != [])
            && (state == Emerging ==> forall c :: c in NextGate(state, cells, threshold) <==>
                                        c in cells && 2 <= |c.events|)
            && (state == Evidenced ==> forall c :: c in NextGate(state, cells, threshold) <==>
                                         c in cells && |c.events| < threshold && HasMatureNeighbour(c, cells, threshold))
            && (state == Structural ==> forall c :: c in NextGate(state, cells, threshold) <==>
                                          c in cells && |c.events| >= threshold)
  {
    var cells := CellTable(js);
    var state := EvidenceState(cells, |js|, threshold);
    CountPositive(cells, 2);
    CountPositive(cells, threshold);
    forall i | 0 <= i < |cells| ensures cells[i].EventCount() >= 1 {
      EveryCellHasAnEvent(js, i);
    }
    if state == Exploratory {
      AllCandidates(cells, 1, Some(1));
    } else if state == Emerging {
      ReplicatedAreListed(cells, threshold);
    } else if state == Structural {
      var g :| |MatureGroup(cells, threshold, g)| >= 2;
      GroupMembers(cells, threshold, g);
      var c := MatureGroup(cells, threshold, g)[0];
      assert c in MatureGroup(cells, threshold, g);
      forall c ensures c in NextGate(state, cells, threshold) <==> c in cells && |c.events| >= threshold {
        CandidatesMember(cells, threshold, None, c);
      }
      assert c in NextGate(state, cells, threshold);
    } else if state == Evidenced {
      forall c ensures c in NextGate(state, cells, threshold)
                       <==> c in cells && |c.events| < threshold && HasMatureNeighbour(c, cells, threshold) {
        StructuralMember(cells, cells, threshold, c);
      }
    }
  }
}
