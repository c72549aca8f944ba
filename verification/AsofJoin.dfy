/** As-of lookups over labelled time series: the edge map's binary search over a sorted index,
    and the campaign launcher's linear scan over the same log. */
module AsofJoin {
  import opened Basics

  /** A log row. `stamp` is the raw time text and `time` its parsed value in microseconds, if it
      parses; `tag` is the reaction class or the regime and `direction` that of a reaction, both
      possibly missing (empty). */
  datatype Row = Row(
    venue: string,
    instrument: string,
    stamp: string,
    time: Option<int>,
    tag: string,
    direction: string)

  /** An index entry. */
  datatype Entry = Entry(at: int, row: Row)

  type Key = (string, string)

  /** Rows without venue, instrument or a usable time are left out of the index. */
  predicate Usable(r: Row) {
    r.venue != "" && r.instrument != "" && r.stamp != "" && r.time.Some?
  }

  predicate Matches(r: Row, key: Key) {
    Usable(r) && (r.venue, r.instrument) == key
  }

  function EntryOf(r: Row): Entry {
    Entry(if r.time.Some? then r.time.value else 0, r)
  }

  // ------------------------------------------------------------ the index

  function Group(rows: seq<Row>, key: Key): seq<Entry> {
    if rows == [] then []
    else
      var last := rows[|rows| - 1];
      Group(rows[..|rows| - 1], key) + (if Matches(last, key) then [EntryOf(last)] else [])
  }

  /** Stable insertion: behind every entry that is not later. */
  function Insert(s: seq<Entry>, x: Entry): seq<Entry> {
    if s == [] || s[|s| - 1].at <= x.at then s + [x]
    else Insert(s[..|s| - 1], x) + [s[|s| - 1]]
  }

  function StableSort(s: seq<Entry>): seq<Entry> {
    if s == [] then [] else Insert(StableSort(s[..|s| - 1]), s[|s| - 1])
  }

  predicate Sorted(s: seq<Entry>) {
    forall i, j :: 0 <= i < j < |s| ==> s[i].at <= s[j].at
  }

  lemma {:induction false} InsertPermutes(s: seq<Entry>, x: Entry)
    ensures multiset(Insert(s, x)) == multiset(s) + multiset{x}
  {
    if s != [] && s[|s| - 1].at > x.at {
      assert s == s[..|s| - 1] + [s[|s| - 1]];
      InsertPermutes(s[..|s| - 1], x);
    }
  }

  lemma {:induction false} InsertSorts(s: seq<Entry>, x: Entry)
    requires Sorted(s)
    ensures Sorted(Insert(s, x))
  {
    if s != [] && s[|s| - 1].at > x.at {
      var init, last := s[..|s| - 1], s[|s| - 1];
      InsertSorts(init, x);
      InsertPermutes(init, x);
      forall i | 0 <= i < |Insert(init, x)| ensures Insert(init, x)[i].at <= last.at {
        assert Insert(init, x)[i] in multiset(Insert(init, x));
        assert Insert(init, x)[i] in init || Insert(init, x)[i] == x;
      }
    }
  }

  lemma {:induction false} StableSortSorts(s: seq<Entry>)
    ensures Sorted(StableSort(s)) && multiset(StableSort(s)) == multiset(s)
  {
    if s != [] {
      assert s == s[..|s| - 1] + [s[|s| - 1]];
      StableSortSorts(s[..|s| - 1]);
      InsertSorts(StableSort(s[..|s| - 1]), s[|s| - 1]);
      InsertPermutes(StableSort(s[..|s| - 1]), s[|s| - 1]);
    }
  }

  /** Group by key in file order, then sort each group by time. */
  method IndexByKey(rows: seq<Row>) returns (index: map<Key, seq<Entry>>)
    ensures IsIndex(index, rows)
  {
    var grouped: map<Key, seq<Entry>> := map[];
    for i := 0 to |rows|
      invariant forall key :: key in grouped <==> Group(rows[..i], key) != []
      invariant forall key :: key in grouped ==> grouped[key] == Group(rows[..i], key)
    {
      assert rows[..i + 1][..i] == rows[..i];
      var r := rows[i];
      if Usable(r) {
        var key := (r.venue, r.instrument);
        grouped := grouped[key := (if key in grouped then grouped[key] else []) + [EntryOf(r)]];
      }
    }
    assert rows[..|rows|] == rows;
    index := map key | key in grouped :: StableSort(grouped[key]);
  }

  ghost predicate IsIndex(index: map<Key, seq<Entry>>, rows: seq<Row>) {
    && (forall key :: key in index <==> Group(rows, key) != [])
    && (forall key :: key in index ==> index[key] == StableSort(Group(rows, key)))
  }

  // ------------------------------------------------------------ the lookup

  /** The last entry at or before `target`. */
  function LastAtMost(s: seq<Entry>, target: int): Option<Entry> {
    if s == [] then None
    else if s[|s| - 1].at <= target then Some(s[|s| - 1])
    else LastAtMost(s[..|s| - 1], target)
  }

  lemma {:induction false} LastAtMostIs(s: seq<Entry>, target: int, n: nat)
    requires n <= |s|
    requires forall i :: 0 <= i < n ==> s[i].at <= target
    requires forall i :: n <= i < |s| ==> s[i].at > target
    ensures LastAtMost(s, target) == if n == 0 then None else Some(s[n - 1])
  {
    if n < |s| {
      LastAtMostIs(s[..|s| - 1], target, n);
    }
  }

  function WithinLookback(e: Option<Entry>, target: int, lookback: int): Option<Row> {
    if e.Some? && e.value.at >= target - lookback then Some(e.value.row) else None
  }

  /** What a lookup in the index returns, as a function of the log. */
  function Lookup(rows: seq<Row>, key: Key, target: int): Option<Entry> {
    LastAtMost(StableSort(Group(rows, key)), target)
  }

  function Asof(rows: seq<Row>, key: Key, target: int, lookback: int): Option<Row> {
    WithinLookback(Lookup(rows, key, target), target, lookback)
  }

  /** The binary search for the number of entries not after the target. */
  method BisectRight(series: seq<Entry>, target: int) returns (lo: int)
    requires Sorted(series)
    ensures 0 <= lo <= |series|
    ensures forall i :: 0 <= i < lo ==> series[i].at <= target
    ensures forall i :: lo <= i < |series| ==> series[i].at > target
  {
    lo := 0;
    var hi := |series|;
    while lo < hi
      invariant 0 <= lo <= hi <= |series|
      invariant forall i :: 0 <= i < lo ==> series[i].at <= target
      invariant forall i :: hi <= i < |series| ==> series[i].at > target
    {
      var mid := (lo + hi) / 2;
      if series[mid].at <= target {
        lo := mid + 1;
      } else {
        hi := mid;
      }
    }
  }

  method AsofLookup(index: map<Key, seq<Entry>>, ghost rows: seq<Row>, key: Key, target: int, lookback: int)
    returns (r: Option<Row>)
    requires IsIndex(index, rows)
    ensures r == Asof(rows, key, target, lookback)
  {
    if key !in index {
      assert Group(rows, key) == [];
      return None;
    }
    var series := index[key];
    StableSortSorts(Group(rows, key));
    var cutoff := target - lookback;
    var lo := BisectRight(series, target);
    LastAtMostIs(series, target, lo);
    var idx := lo - 1;
    if idx < 0 {
      return None;
    }
    if series[idx].at < cutoff {
      return None;
    }
    r := Some(series[idx].row);
  }

  // ------------------------------------------------------------ what a lookup means for the log

  /** A row of that venue and instrument with a readable time that is not after the target. */
  predicate Candidate(r: Row, key: Key, target: int) {
    && r.venue == key.0 && key.0 != "" && r.instrument == key.1 && key.1 != ""
    && r.stamp != "" && r.time.Some? && r.time.value <= target
  }

  /** File row `i` is the latest candidate: none is later, and none as late comes after it. */
  ghost predicate IsLatest(rows: seq<Row>, key: Key, target: int, i: int) {
    && 0 <= i < |rows| && Candidate(rows[i], key, target)
    && forall j :: 0 <= j < |rows| && Candidate(rows[j], key, target) ==>
         rows[j].time.value < rows[i].time.value || (rows[j].time == rows[i].time && j <= i)
  }

  lemma {:induction false} LastAtMostMember(s: seq<Entry>, target: int)
    ensures match LastAtMost(s, target)
            case None => forall i :: 0 <= i < |s| ==> s[i].at > target
            case Some(e) => e in s && e.at <= target
  {
    if s != [] && s[|s| - 1].at > target {
      LastAtMostMember(s[..|s| - 1], target);
    }
  }

  /** Whether a newly written entry displaces the best one so far. */
  predicate Displaces(x: Entry, best: Option<Entry>, target: int) {
    x.at <= target && (best.None? || best.value.at <= x.at)
  }

  lemma {:induction false} InsertThenLast(s: seq<Entry>, x: Entry, target: int)
    requires Sorted(s)
    ensures LastAtMost(Insert(s, x), target)
            == if Displaces(x, LastAtMost(s, target), target) then Some(x) else LastAtMost(s, target)
  {
    LastAtMostMember(s, target);
    if s == [] || s[|s| - 1].at <= x.at {
      assert (s + [x])[..|s|] == s;
    } else {
      var init, last := s[..|s| - 1], s[|s| - 1];
      InsertThenLast(init, x, target);
      assert (Insert(init, x) + [last])[..|Insert(init, x)|] == Insert(init, x);
    }
  }

  /** Writing one more row: it is found from now on exactly when it displaces. */
  lemma LookupStep(rows: seq<Row>, x: Row, key: Key, target: int)
    ensures Lookup(rows + [x], key, target)
            == if Matches(x, key) && Displaces(EntryOf(x), Lookup(rows, key, target), target) then Some(EntryOf(x))
               else Lookup(rows, key, target)
  {
    assert (rows + [x])[..|rows|] == rows;
    var g := Group(rows, key);
    if Matches(x, key) {
      assert (g + [EntryOf(x)])[..|g|] == g;
      StableSortSorts(g);
      InsertThenLast(StableSort(g), EntryOf(x), target);
    } else {
      assert g + [] == g;
    }
  }

  /** `e` is the entry of the log's latest candidate, if it has any candidate. */
  ghost predicate IsLatestEntry(rows: seq<Row>, key: Key, target: int, e: Option<Entry>) {
    match e
    case None => forall j :: 0 <= j < |rows| ==> !Candidate(rows[j], key, target)
    case Some(entry) => exists i :: IsLatest(rows, key, target, i) && entry == Entry(rows[i].time.value, rows[i])
  }

  lemma LatestStep(rows: seq<Row>, x: Row, key: Key, target: int, e: Option<Entry>)
    requires IsLatestEntry(rows, key, target, e)
    ensures IsLatestEntry(rows + [x], key, target,
                          if Matches(x, key) && Displaces(EntryOf(x), e, target) then Some(EntryOf(x)) else e)
  {
    var more := rows + [x];
    assert more[|rows|] == x;
    if e.Some? {
      var i :| IsLatest(rows, key, target, i) && e.value == EntryOf(rows[i]);
      if Matches(x, key) && Displaces(EntryOf(x), e, target) {
        assert IsLatest(more, key, target, |rows|);
      } else {
        assert IsLatest(more, key, target, i);
      }
    } else if Candidate(x, key, target) {
      assert IsLatest(more, key, target, |rows|);
    }
  }

  /** Sorting, bisecting and stability together: the lookup finds the latest candidate of the
      log, the last one written where several share that time. */
  lemma {:induction false} LookupFindsLatest(rows: seq<Row>, key: Key, target: int)
    ensures IsLatestEntry(rows, key, target, Lookup(rows, key, target))
  {
    if rows != [] {
      var init, x := rows[..|rows| - 1], rows[|rows| - 1];
      assert rows == init + [x];
      LookupFindsLatest(init, key, target);
      LookupStep(init, x, key, target);
      LatestStep(init, x, key, target, Lookup(init, key, target));
    }
  }

  /** What an as-of join may return: the last written of the latest rows not after the target,
      if that is within the lookback, and otherwise nothing. */
  ghost predicate IsAsof(rows: seq<Row>, key: Key, target: int, lookback: int, found: Option<Row>) {
    match found
    case None =>
      forall j :: 0 <= j < |rows| && Candidate(rows[j], key, target) ==> target - rows[j].time.value > lookback
    case Some(row) =>
      exists i :: IsLatest(rows, key, target, i) && row == rows[i] && target - rows[i].time.value <= lookback
  }

  lemma AsofIsLatest(rows: seq<Row>, key: Key, target: int, lookback: int)
    ensures IsAsof(rows, key, target, lookback, Asof(rows, key, target, lookback))
  {
    LookupFindsLatest(rows, key, target);
    var found := Lookup(rows, key, target);
    if found.Some? {
      var i :| IsLatest(rows, key, target, i) && found.value == Entry(rows[i].time.value, rows[i]);
      assert Candidate(rows[i], key, target);
    }
  }

  // ------------------------------------------------------------ the launcher's linear scan

  predicate Fresh(x: Entry, target: int, maxAge: int) {
    target - maxAge <= x.at <= target
  }

  function Scan(rows: seq<Row>, key: Key, target: int, maxAge: int): Option<Entry> {
    if rows == [] then None
    else
      var before, r := Scan(rows[..|rows| - 1], key, target, maxAge), rows[|rows| - 1];
      if Matches(r, key) && Fresh(EntryOf(r), target, maxAge) && (before.None? || EntryOf(r).at > before.value.at)
      then Some(EntryOf(r)) else before
  }

  /** A row the launcher reads the time of; it raises when that does not parse. */
  predicate Addresses(r: Row, key: Key) {
    (r.venue, r.instrument) == key && r.stamp != ""
  }

  /** The launcher keeps the first of equally late rows, and tests the age row by row. */
  method LauncherScan(rows: seq<Row>, key: Key, target: int, maxAge: int) returns (raised: bool, best: Option<Entry>)
    requires key.0 != "" && key.1 != ""
    ensures raised <==> exists i :: 0 <= i < |rows| && rows[i].venue == key.0 && rows[i].instrument == key.1
                                    && rows[i].stamp != "" && rows[i].time.None?
    ensures !raised ==> best == Scan(rows, key, target, maxAge)
  {
    best := None;
    for i := 0 to |rows|
      invariant forall k :: 0 <= k < i ==> !(Addresses(rows[k], key) && rows[k].time.None?)
      invariant best == Scan(rows[..i], key, target, maxAge)
    {
      assert rows[..i + 1][..i] == rows[..i];
      if !Addresses(rows[i], key) {
        continue;
      }
      if rows[i].time.None? {
        return true, None;
      }
      var e := EntryOf(rows[i]);
      if e.at > target {
        continue;
      }
      if target - e.at > maxAge {
        continue;
      }
      if best.None? || e.at > best.value.at {
        best := Some(e);
      }
    }
    raised := false;
    assert rows[..|rows|] == rows;
  }

  /** File row `i` is the first of the latest candidates. */
  ghost predicate IsFirstLatest(rows: seq<Row>, key: Key, target: int, i: int) {
    && 0 <= i < |rows| && Candidate(rows[i], key, target)
    && forall j :: 0 <= j < |rows| && Candidate(rows[j], key, target) ==>
         rows[j].time.value < rows[i].time.value || (rows[j].time == rows[i].time && i <= j)
  }

  ghost predicate IsScanResult(rows: seq<Row>, key: Key, target: int, maxAge: int, e: Option<Entry>) {
    match e
    case None =>
      forall j :: 0 <= j < |rows| && Candidate(rows[j], key, target) ==> target - rows[j].time.value > maxAge
    case Some(entry) =>
      && target - entry.at <= maxAge
      && exists i :: IsFirstLatest(rows, key, target, i) && entry == Entry(rows[i].time.value, rows[i])
  }

  lemma ScanStep(rows: seq<Row>, x: Row, key: Key, target: int, maxAge: int, e: Option<Entry>)
    requires IsScanResult(rows, key, target, maxAge, e)
    ensures IsScanResult(rows + [x], key, target, maxAge,
              if Matches(x, key) && Fresh(EntryOf(x), target, maxAge) && (e.None? || EntryOf(x).at > e.value.at)
              then Some(EntryOf(x)) else e)
  {
    var more := rows + [x];
    assert more[|rows|] == x;
    if Matches(x, key) && Fresh(EntryOf(x), target, maxAge) && (e.None? || EntryOf(x).at > e.value.at) {
      if e.Some? {
        var i :| IsFirstLatest(rows, key, target, i) && e.value == EntryOf(rows[i]);
        assert IsFirstLatest(more, key, target, |rows|);
      } else {
        assert IsFirstLatest(more, key, target, |rows|);
      }
    } else if e.Some? {
      var i :| IsFirstLatest(rows, key, target, i) && e.value == EntryOf(rows[i]);
      assert IsFirstLatest(more, key, target, i);
    }
  }

  lemma {:induction false} ScanFindsFirstLatest(rows: seq<Row>, key: Key, target: int, maxAge: int)
    ensures IsScanResult(rows, key, target, maxAge, Scan(rows, key, target, maxAge))
  {
    if rows != [] {
      var init, x := rows[..|rows| - 1], rows[|rows| - 1];
      assert rows == init + [x];
      ScanFindsFirstLatest(init, key, target, maxAge);
      ScanStep(init, x, key, target, maxAge, Scan(init, key, target, maxAge));
    }
  }

  /** The launcher and the edge map agree on whether a row is in reach and on its time. They
      attach the same row exactly when the first and the last row written for that instant
      are the same; otherwise gating and reporting may go by different labels. */
  lemma LauncherAgreement(rows: seq<Row>, key: Key, target: int, maxAge: int)
    ensures var launcher := Scan(rows, key, target, maxAge);
            var edgeMap := Lookup(rows, key, target);
            && (launcher.Some? <==> edgeMap.Some? && edgeMap.value.at >= target - maxAge)
            && (launcher.Some? ==>
                  && launcher.value.at == edgeMap.value.at
                  && Asof(rows, key, target, maxAge).Some?
                  && (launcher.value.row == Asof(rows, key, target, maxAge).value <==>
                        forall i, j :: IsFirstLatest(rows, key, target, i) && IsLatest(rows, key, target, j) ==>
                          rows[i] == rows[j]))
  {
    ScanFindsFirstLatest(rows, key, target, maxAge);
    LookupFindsLatest(rows, key, target);
    var launcher, edgeMap := Scan(rows, key, target, maxAge), Lookup(rows, key, target);
    if edgeMap.Some? {
      var j :| IsLatest(rows, key, target, j) && edgeMap.value == EntryOf(rows[j]);
      if launcher.Some? {
        var i :| IsFirstLatest(rows, key, target, i) && launcher.value == EntryOf(rows[i]);
        forall u, v | IsFirstLatest(rows, key, target, u) && IsLatest(rows, key, target, v) ensures u == i && v == j {
          FirstLatestUnique(rows, key, target, u, i);
          LatestUnique(rows, key, target, v, j);
        }
      }
    }
  }

  /** Two rows of one instant: the launcher goes by the first, the edge map by the second. */
  lemma SameInstant(first: Row, second: Row, key: Key, target: int, maxAge: int)
    requires Matches(first, key) && Matches(second, key) && first.time == second.time
    requires Fresh(EntryOf(first), target, maxAge)
    ensures Scan([first, second], key, target, maxAge) == Some(EntryOf(first))
    ensures Asof([first, second], key, target, maxAge) == Some(second)
  {
    assert [first, second][..1] == [first] && [first][..0] == [];
    assert [first] == [] + [first] && [first, second] == [first] + [second];
    assert Scan([], key, target, maxAge) == None;
    assert Scan([first], key, target, maxAge) == Some(EntryOf(first));
    assert Lookup([], key, target) == None;
    LookupStep([], first, key, target);
    LookupStep([first], second, key, target);
  }

  /** So gate and report differ on a log as short as this. */
  lemma SameInstantDiffers()
    ensures var fast, slow := Row("v", "i", "t", Some(1), "FAST", "up"), Row("v", "i", "t", Some(1), "SLOW", "up");
            && Scan([fast, slow], ("v", "i"), 2, 300).Some?
            && Scan([fast, slow], ("v", "i"), 2, 300).value.row.tag == "FAST"
            && Asof([fast, slow], ("v", "i"), 2, 300).Some?
            && Asof([fast, slow], ("v", "i"), 2, 300).value.tag == "SLOW"
  {
    var fast, slow := Row("v", "i", "t", Some(1), "FAST", "up"), Row("v", "i", "t", Some(1), "SLOW", "up");
    SameInstant(fast, slow, ("v", "i"), 2, 300);
  }

  lemma LatestUnique(rows: seq<Row>, key: Key, target: int, i: int, j: int)
    requires IsLatest(rows, key, target, i) && IsLatest(rows, key, target, j)
    ensures i == j
  {
  }

  lemma FirstLatestUnique(rows: seq<Row>, key: Key, target: int, i: int, j: int)
    requires IsFirstLatest(rows, key, target, i) && IsFirstLatest(rows, key, target, j)
    ensures i == j
  {
  }
}
