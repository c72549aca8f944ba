/** Joining labelled outcomes to the reaction and regime streams, and bucketing the results. */
module EdgeMap {
  import opened AsofJoin
  import opened Basics

  /** Five minutes; log times are read to the microsecond. */
  const LOOKBACK: int := 300000000
  const UNKNOWN: string := "UNKNOWN"

  /** An outcome row; `stamp` is the intent time, or the fill time where that is missing. */
  datatype OutcomeRow = OutcomeRow(
    decisionId: string,
    venue: string,
    instrument: string,
    stamp: string,
    time: Option<int>,
    pnl: Option<real>)

  datatype Joined = Joined(row: OutcomeRow, pnl: real, reaction: Option<Row>, regime: Option<Row>)

  datatype Streams = Streams(reactions: seq<Row>, regimes: seq<Row>)

  /** Reaction class and regime of a joined row. */
  type Cell = (string, string)

  predicate Addressed(o: OutcomeRow) {
    o.venue != "" && o.instrument != "" && o.stamp != ""
  }

  /** The join of one outcome; None for a row that is skipped. */
  function JoinOne(o: OutcomeRow, s: Streams): Option<Joined> {
    if !Addressed(o) || o.pnl.None? || o.time.None? then None
    else
      var key := (o.venue, o.instrument);
      Some(Joined(o, o.pnl.value, Asof(s.reactions, key, o.time.value, LOOKBACK),
                  Asof(s.regimes, key, o.time.value, LOOKBACK)))
  }

  function JoinAll(outcomes: seq<OutcomeRow>, s: Streams): seq<Joined> {
    if outcomes == [] then []
    else
      var last := JoinOne(outcomes[|outcomes| - 1], s);
      JoinAll(outcomes[..|outcomes| - 1], s) + (if last.Some? then [last.value] else [])
  }

  function Tag(r: Option<Row>): string {
    if r.Some? && r.value.tag != "" then r.value.tag else UNKNOWN
  }

  function CellOf(j: Joined): Cell {
    (Tag(j.reaction), Tag(j.regime))
  }

  predicate HasBoth(j: Joined) {
    j.reaction.Some? && j.regime.Some?
  }

  /** The samples of one bucket of the edge map: every joined row with these labels. */
  function Bucket(js: seq<Joined>, cell: Cell): seq<Joined> {
    if js == [] then []
    else
      var last := js[|js| - 1];
      Bucket(js[..|js| - 1], cell) + (if CellOf(last) == cell then [last] else [])
  }

  /** The rows that found both a reaction and a regime. */
  function Complete(js: seq<Joined>): seq<Joined> {
    if js == [] then []
    else
      var last := js[|js| - 1];
      Complete(js[..|js| - 1]) + (if HasBoth(last) then [last] else [])
  }

  function CountReactions(js: seq<Joined>): nat {
    if js == [] then 0
    else CountReactions(js[..|js| - 1]) + (if js[|js| - 1].reaction.Some? then 1 else 0)
  }

  function CountRegimes(js: seq<Joined>): nat {
    if js == [] then 0
    else CountRegimes(js[..|js| - 1]) + (if js[|js| - 1].regime.Some? then 1 else 0)
  }

  /** Buckets as a table: exactly the non-empty ones are present. */
  ghost predicate IsTable(table: map<Cell, seq<Joined>>, js: seq<Joined>) {
    && (forall cell :: cell in table <==> Bucket(js, cell) != [])
    && (forall cell :: cell in table ==> table[cell] == Bucket(js, cell))
  }

  function AddTo(table: map<Cell, seq<Joined>>, j: Joined): map<Cell, seq<Joined>> {
    var cell := CellOf(j);
    table[cell := (if cell in table then table[cell] else []) + [j]]
  }

  lemma TableStep(table: map<Cell, seq<Joined>>, js: seq<Joined>, j: Joined)
    requires IsTable(table, js)
    ensures IsTable(AddTo(table, j), js + [j])
  {
    forall cell ensures Bucket(js + [j], cell) == Bucket(js, cell) + (if CellOf(j) == cell then [j] else []) {
      assert (js + [j])[..|js|] == js;
    }
  }

  /** One turn of the join loop: skip the row, or look both streams up. */
  method JoinRow(reactions: map<Key, seq<Entry>>, regimes: map<Key, seq<Entry>>, ghost s: Streams, o: OutcomeRow)
    returns (j: Option<Joined>)
    requires IsIndex(reactions, s.reactions) && IsIndex(regimes, s.regimes)
    ensures j == JoinOne(o, s)
  {
    if !Addressed(o) {
      return None;
    }
    if o.pnl.None? {
      return None;
    }
    if o.time.None? {
      return None;
    }
    var key := (o.venue, o.instrument);
    var reaction := AsofLookup(reactions, s.reactions, key, o.time.value, LOOKBACK);
    var regime := AsofLookup(regimes, s.regimes, key, o.time.value, LOOKBACK);
    j := Some(Joined(o, o.pnl.value, reaction, regime));
  }

  /** What a join has to be: the outcome with its profit, and the latest row of each stream
      within five minutes. */
  ghost predicate IsJoinOf(j: Joined, o: OutcomeRow, s: Streams) {
    && j.row == o && o.pnl == Some(j.pnl) && o.time.Some?
    && IsAsof(s.reactions, (o.venue, o.instrument), o.time.value, 300000000, j.reaction)
    && IsAsof(s.regimes, (o.venue, o.instrument), o.time.value, 300000000, j.regime)
  }

  /** An outcome is joined exactly if it has a venue, an instrument, a readable time and a profit. */
  lemma JoinOneExactly(o: OutcomeRow, s: Streams)
    ensures JoinOne(o, s).Some?
            <==> o.venue != "" && o.instrument != "" && o.stamp != "" && o.time.Some? && o.pnl.Some?
    ensures JoinOne(o, s).Some? ==> IsJoinOf(JoinOne(o, s).value, o, s)
  {
    if o.time.Some? {
      AsofIsLatest(s.reactions, (o.venue, o.instrument), o.time.value, LOOKBACK);
      AsofIsLatest(s.regimes, (o.venue, o.instrument), o.time.value, LOOKBACK);
    }
  }

  /** The joined rows are the joins of the joinable outcomes, in their order. */
  lemma {:induction false} JoinAllExactly(outcomes: seq<OutcomeRow>, s: Streams) returns (from: seq<nat>)
    ensures var joined := JoinAll(outcomes, s);
            && |from| == |joined|
            && (forall k :: 0 <= k < |from| ==> from[k] < |outcomes| && IsJoinOf(joined[k], outcomes[from[k]], s))
            && (forall k, l :: 0 <= k < l < |from| ==> from[k] < from[l])
            && (forall i: nat :: i < |outcomes| && JoinOne(outcomes[i], s).Some? ==> i in from)
  {
    from := [];
    if outcomes != [] {
      var init, last := outcomes[..|outcomes| - 1], outcomes[|outcomes| - 1];
      var earlier := JoinAllExactly(init, s);
      JoinOneExactly(last, s);
      from := earlier + (if JoinOne(last, s).Some? then [|init|] else []);
      forall i: nat | i < |outcomes| && JoinOne(outcomes[i], s).Some? ensures i in from {
        if i < |init| {
          assert i in earlier;
        } else {
          assert from[|earlier|] == i;
        }
      }
    }
  }

  /** The label of a row that was found and has one. */
  predicate HasLabel(r: Option<Row>, text: string) {
    if r.None? || r.value.tag == "" then text == UNKNOWN else text == r.value.tag
  }

  /** A bucket holds exactly the rows with its reaction class and its regime. */
  lemma {:induction false} BucketHolds(js: seq<Joined>, cell: Cell, j: Joined)
    ensures j in Bucket(js, cell) <==> j in js && HasLabel(j.reaction, cell.0) && HasLabel(j.regime, cell.1)
  {
    if js != [] {
      BucketHolds(js[..|js| - 1], cell, j);
      assert js == js[..|js| - 1] + [js[|js| - 1]];
    }
  }

  lemma JoinStep(outcomes: seq<OutcomeRow>, i: nat, s: Streams)
    requires i < |outcomes|
    ensures JoinAll(outcomes[..i + 1], s)
            == if JoinOne(outcomes[i], s).Some? then JoinAll(outcomes[..i], s) + [JoinOne(outcomes[i], s).value]
               else JoinAll(outcomes[..i], s)
  {
    assert outcomes[..i + 1][..i] == outcomes[..i];
  }

  lemma CompleteStep(js: seq<Joined>, j: Joined)
    ensures Complete(js + [j]) == if HasBoth(j) then Complete(js) + [j] else Complete(js)
  {
    assert (js + [j])[..|js|] == js;
  }

  lemma CountStep(js: seq<Joined>, j: Joined)
    ensures CountReactions(js + [j]) == CountReactions(js) + (if j.reaction.Some? then 1 else 0)
    ensures CountRegimes(js + [j]) == CountRegimes(js) + (if j.regime.Some? then 1 else 0)
  {
    assert (js + [j])[..|js|] == js;
  }

  /** The positions of the rows that found a reaction, or a regime. */
  function WithReaction(js: seq<Joined>): set<nat> {
    set i: nat | i < |js| && js[i].reaction.Some?
  }

  function WithRegime(js: seq<Joined>): set<nat> {
    set i: nat | i < |js| && js[i].regime.Some?
  }

  lemma {:induction false} ReactionsCounted(js: seq<Joined>)
    ensures CountReactions(js) == |WithReaction(js)|
  {
    if js != [] {
      var n := |js| - 1;
      var before := WithReaction(js[..n]);
      ReactionsCounted(js[..n]);
      assert n !in before;
      assert WithReaction(js) == if js[n].reaction.Some? then before + {n} else before;
    }
  }

  lemma {:induction false} RegimesCounted(js: seq<Joined>)
    ensures CountRegimes(js) == |WithRegime(js)|
  {
    if js != [] {
      var n := |js| - 1;
      var before := WithRegime(js[..n]);
      RegimesCounted(js[..n]);
      assert n !in before;
      assert WithRegime(js) == if js[n].regime.Some? then before + {n} else before;
    }
  }

  /** The join loop with its counters. */
  method JoinOutcomes(s: Streams, outcomes: seq<OutcomeRow>)
    returns (joined: seq<Joined>, withReaction: nat, withRegime: nat, withBoth: nat)
    ensures joined == JoinAll(outcomes, s)
    ensures withReaction == |WithReaction(joined)| && withRegime == |WithRegime(joined)|
    ensures withBoth == |Complete(joined)|
  {
    var reactions := IndexByKey(s.reactions);
    var regimes := IndexByKey(s.regimes);
    joined, withReaction, withRegime, withBoth := [], 0, 0, 0;
    for i := 0 to |outcomes|
      invariant joined == JoinAll(outcomes[..i], s)
      invariant withReaction == CountReactions(joined) && withRegime == CountRegimes(joined)
      invariant withBoth == |Complete(joined)|
    {
      var row := JoinRow(reactions, regimes, s, outcomes[i]);
      JoinStep(outcomes, i, s);
      if row.Some? {
        var j := row.value;
        CompleteStep(joined, j);
        CountStep(joined, j);
        withReaction := withReaction + if j.reaction.Some? then 1 else 0;
        withRegime := withRegime + if j.regime.Some? then 1 else 0;
        withBoth := withBoth + if j.reaction.Some? && j.regime.Some? then 1 else 0;
        joined := joined + [j];
      }
    }
    assert outcomes[..|outcomes|] == outcomes;
    ReactionsCounted(joined);
    RegimesCounted(joined);
  }

  /** The join and its aggregation. */
  method BuildEdgeMap(s: Streams, outcomes: seq<OutcomeRow>)
    returns (joined: seq<Joined>, table: map<Cell, seq<Joined>>, withReaction: nat, withRegime: nat, withBoth: nat)
    ensures joined == JoinAll(outcomes, s)
    ensures IsTable(table, joined)
    ensures withReaction == |WithReaction(joined)| && withRegime == |WithRegime(joined)|
    ensures withBoth == |Complete(joined)|
  {
    joined, withReaction, withRegime, withBoth := JoinOutcomes(s, outcomes);
    table := map[];
    for i := 0 to |joined|
      invariant IsTable(table, joined[..i])
    {
      assert joined[..i + 1] == joined[..i] + [joined[i]];
      TableStep(table, joined[..i], joined[i]);
      table := AddTo(table, joined[i]);
    }
    assert joined[..|joined|] == joined;
  }

  /** A labelled bucket holds only complete rows; only UNKNOWN buckets mix in the others. */
  lemma {:induction false} LabelledBucketsAreComplete(js: seq<Joined>, cell: Cell)
    ensures cell.0 != UNKNOWN && cell.1 != UNKNOWN ==> Bucket(js, cell) == Bucket(Complete(js), cell)
    ensures |Bucket(Complete(js), cell)| <= |Bucket(js, cell)|
  {
    if js != [] {
      var init, last := js[..|js| - 1], js[|js| - 1];
      LabelledBucketsAreComplete(init, cell);
      if HasBoth(last) {
        assert (Complete(init) + [last])[..|Complete(init)|] == Complete(init);
      } else {
        assert Complete(js) == Complete(init);
      }
    }
  }
}
