/** The campaign launcher: each scheduled run launches at most one campaign for the latest
    reaction in an append-only log, and remembers it in a small state file. */
module ReactionCampaign {
  import opened AsofJoin
  import opened Basics

  /** Settings, the age in microseconds. `upper` is the library's upper-casing of labels. */
  datatype Config = Config(
    venues: set<string>,
    instrument: string,
    maxAge: int,
    orderCount: int,
    minSuccess: int,
    allowMultiple: bool,
    maxHistory: int,
    targetClasses: set<string>,
    targetRegimes: set<string>,
    upper: string -> string)

  /** Blank venues are dropped when the settings are read; the instrument is fixed. */
  ghost predicate ValidConfig(c: Config) {
    "" !in c.venues && c.instrument != ""
  }

  /** A line of the campaign history. */
  datatype Record = Record(key: string, reaction: Row, regime: Option<Row>, successes: nat, failures: nat)

  datatype State = State(
    launched: bool,
    reaction: Option<Row>,
    blocked: Option<string>,
    processed: seq<string>,
    history: seq<Record>)

  datatype Side = Buy | Sell

  /** An order of a campaign and the router's answer to it. */
  datatype Order = Order(side: Side, venue: string)
  datatype Reply = Reply(httpStatus: int, status: string, venue: string)

  /** What one run finds outside: the two logs, the clock, and what each order would be answered. */
  datatype Tick = Tick(log: seq<Row>, regimes: seq<Row>, now: int, replies: nat -> Reply)

  datatype Reason =
    AlreadyLaunched | NoReaction | Stale | ClassMismatch | AlreadyProcessed | BlockedTime | RegimeMismatch

  datatype Outcome =
    | Skipped(reason: Reason)
    | Raised
    | Launched(reaction: Row, regime: Option<Row>, success: bool)

  const EMPTY: State := State(false, None, None, [], [])

  // ------------------------------------------------------------ the latest reaction

  predicate Relevant(r: Row, c: Config) {
    r.venue in c.venues && r.instrument == c.instrument && r.stamp != ""
  }

  /** A relevant row whose time does not parse makes the run raise. */
  predicate Unreadable(rows: seq<Row>, c: Config) {
    exists i :: 0 <= i < |rows| && Relevant(rows[i], c) && rows[i].time.None?
  }

  function TimeOf(r: Row): int {
    if r.time.Some? then r.time.value else 0
  }

  function Latest(rows: seq<Row>, c: Config): Option<Row> {
    if rows == [] then None
    else
      var best, r := Latest(rows[..|rows| - 1], c), rows[|rows| - 1];
      if Relevant(r, c) && (best.None? || TimeOf(r) > TimeOf(best.value)) then Some(r) else best
  }

  method LatestReaction(rows: seq<Row>, c: Config) returns (raised: bool, best: Option<Row>)
    ensures raised == Unreadable(rows, c)
    ensures !raised ==> best == Latest(rows, c)
  {
    best := None;
    for i := 0 to |rows|
      invariant forall k :: 0 <= k < i ==> !(Relevant(rows[k], c) && rows[k].time.None?)
      invariant best == Latest(rows[..i], c)
    {
      assert rows[..i + 1][..i] == rows[..i];
      if !Relevant(rows[i], c) {
        continue;
      }
      if rows[i].time.None? {
        return true, None;
      }
      if best.None? || TimeOf(rows[i]) > TimeOf(best.value) {
        best := Some(rows[i]);
      }
    }
    raised := false;
    assert rows[..|rows|] == rows;
  }

  lemma {:induction false} LatestIsRelevant(rows: seq<Row>, c: Config)
    ensures Latest(rows, c).Some? ==> Relevant(Latest(rows, c).value, c)
  {
    if rows != [] {
      LatestIsRelevant(rows[..|rows| - 1], c);
    }
  }

  /** As the log grows the latest reaction moves forward in time or stays the very same row. */
  lemma {:induction false} LatestAdvances(rows: seq<Row>, more: seq<Row>, c: Config)
    requires rows <= more && Latest(rows, c).Some?
    ensures Latest(more, c).Some?
    ensures var a, b := Latest(rows, c).value, Latest(more, c).value;
            TimeOf(a) < TimeOf(b) || a == b
  {
    if |more| > |rows| {
      LatestAdvances(rows, more[..|more| - 1], c);
    } else {
      assert rows == more;
    }
  }

  // ------------------------------------------------------------ event keys

  function EventKeyOf(r: Row, c: Config): Option<string> {
    if r.venue == "" || r.stamp == "" then None
    else Some(r.venue + "|" + (if r.instrument == "" then c.instrument else r.instrument) + "|" + r.stamp + "|" + r.tag)
  }

  function ProcessedKeys(s: State, c: Config): set<string> {
    var listed := set key | key in s.processed && key != "";
    if s.launched && s.reaction.Some? && EventKeyOf(s.reaction.value, c).Some?
    then listed + {EventKeyOf(s.reaction.value, c).value} else listed
  }

  /** The slice `items[-max:]`: a size of zero keeps everything, a negative one drops from the front. */
  function LastItems<T>(items: seq<T>, max: int): (r: seq<T>)
    ensures |r| <= |items| && (max > 0 ==> |r| == if |items| <= max then |items| else max)
    ensures forall i :: 0 <= i < |r| ==> r[i] == items[|items| - |r| + i]
  {
    if max > 0 then (if |items| <= max then items else items[|items| - max..])
    else if |items| <= -max then [] else items[-max..]
  }

  /** The elements of a set in some order, each once. */
  ghost predicate Enumerates(order: seq<string>, keys: set<string>) {
    && (forall i, j :: 0 <= i < j < |order| ==> order[i] != order[j])
    && (forall key :: key in order <==> key in keys)
  }

  /** `list(keys)`: the order is the set's own, so nothing is promised about it. */
  method ListOf(keys: set<string>) returns (order: seq<string>)
    ensures Enumerates(order, keys)
  {
    order := [];
    var rest := keys;
    while rest != {}
      invariant rest <= keys && Enumerates(order, keys - rest)
    {
      var key :| key in rest;
      assert key !in order;
      order, rest := order + [key], rest - {key};
    }
    assert keys - rest == keys;
  }

  // ------------------------------------------------------------ one run

  /** The launcher's regime lookup raises on a row it would have to read the time of. */
  predicate RegimeUnreadable(rows: seq<Row>, key: Key) {
    exists i :: 0 <= i < |rows| && Addresses(rows[i], key) && rows[i].time.None?
  }

  function RegimeFor(r: Row, regimes: seq<Row>, c: Config): Option<Row> {
    var best := Scan(regimes, (r.venue, c.instrument), TimeOf(r), c.maxAge);
    if best.Some? then Some(best.value.row) else None
  }

  predicate ClassWanted(r: Row, c: Config) {
    c.targetClasses == {} || c.upper(r.tag) in c.targetClasses
  }

  predicate RegimeWanted(regime: Option<Row>, c: Config) {
    c.targetRegimes == {} || (regime.Some? && c.upper(regime.value.tag) in c.targetRegimes)
  }

  /** An order counts only if it was filled at the very venue it was meant for. */
  predicate FilledAt(venue: string, reply: Reply) {
    reply.httpStatus == 200 && reply.status == "filled" && reply.venue == venue
  }

  /** A negative setting sends nothing. */
  function OrderCount(c: Config): nat {
    if c.orderCount > 0 then c.orderCount else 0
  }

  function CountFills(venue: string, replies: nat -> Reply, n: nat): (count: nat)
    ensures count <= n
  {
    if n == 0 then 0 else CountFills(venue, replies, n - 1) + (if FilledAt(venue, replies(n - 1)) then 1 else 0)
  }

  function Fills(c: Config, t: Tick, r: Row): nat {
    CountFills(r.venue, t.replies, OrderCount(c))
  }

  /** What a run does: why it stops, or what it launches. */
  function Decide(c: Config, s: State, t: Tick): Outcome {
    if s.launched && !c.allowMultiple then Skipped(AlreadyLaunched)
    else if Unreadable(t.log, c) then Raised
    else
      var latest := Latest(t.log, c);
      if latest.None? then Skipped(NoReaction)
      else DecideOn(c, s, t, latest.value)
  }

  function DecideOn(c: Config, s: State, t: Tick, r: Row): Outcome {
    var key := EventKeyOf(r, c);
    if t.now - TimeOf(r) > c.maxAge then Skipped(Stale)
    else if !ClassWanted(r, c) then Skipped(ClassMismatch)
    else if key.Some? && key.value in ProcessedKeys(s, c) then Skipped(AlreadyProcessed)
    else if s.blocked == Some(r.stamp) then Skipped(BlockedTime)
    else if RegimeUnreadable(t.regimes, (r.venue, c.instrument)) then Raised
    else
      var regime := RegimeFor(r, t.regimes, c);
      if !RegimeWanted(regime, c) then Skipped(RegimeMismatch)
      else Launched(r, regime, Fills(c, t, r) >= c.minSuccess)
  }

  function RecordOf(c: Config, t: Tick, o: Outcome): Record
    requires o.Launched?
  {
    var key := EventKeyOf(o.reaction, c);
    Record(if key.Some? then key.value else "", o.reaction, o.regime,
           Fills(c, t, o.reaction), OrderCount(c) - Fills(c, t, o.reaction))
  }

  function WithKey(order: seq<string>, key: string): seq<string> {
    if key in order then order else order + [key]
  }

  /** The key list after a success: any order of the old keys, a new one last, cut to size. */
  ghost predicate Remembers(known: set<string>, key: string, max: int, processed: seq<string>) {
    exists order :: Enumerates(order, known) && processed == LastItems(WithKey(order, key), max)
  }

  /** The state a launch writes. */
  ghost predicate Writes(c: Config, s: State, t: Tick, o: Outcome, after: State)
    requires o.Launched?
  {
    && (!o.success ==>
          after == s.(launched := false, blocked := Some(o.reaction.stamp), reaction := Some(o.reaction)))
    && (o.success ==>
          && EventKeyOf(o.reaction, c).Some?
          && Remembers(ProcessedKeys(s, c), EventKeyOf(o.reaction, c).value, c.maxHistory, after.processed)
          && after == State(true, Some(o.reaction), s.blocked, after.processed,
                            LastItems(s.history + [RecordOf(c, t, o)], c.maxHistory)))
  }

  /** The state a run leaves behind; only a launch writes it. */
  ghost predicate Step(c: Config, s: State, t: Tick, o: Outcome, after: State) {
    && o == Decide(c, s, t)
    && (if o.Launched? then Writes(c, s, t, o, after) else after == s)
  }

  /** Buying and selling in turn, starting with the reaction's direction (up where missing). */
  function SideSequence(direction: string, count: nat): (sides: seq<Side>)
    ensures |sides| == count && (count > 0 ==> (sides[0] == Buy <==> direction in {"", "up"}))
    ensures forall i :: 0 < i < count ==> sides[i] != sides[i - 1]
  {
    var first := if direction == "" || direction == "up" then Buy else Sell;
    var second := if first == Buy then Sell else Buy;
    seq(count, i => if i % 2 == 0 then first else second)
  }

  predicate AreOrders(orders: seq<Order>, sides: seq<Side>, venue: string) {
    |orders| <= |sides| && forall i :: 0 <= i < |orders| ==> orders[i] == Order(sides[i], venue)
  }

  ghost predicate Increasing(numbers: seq<nat>) {
    forall i, j :: 0 <= i < j < |numbers| ==> numbers[i] < numbers[j]
  }

  /** Order `k` was answered 200, filled, and by the venue asked for; or was not. */
  predicate Came(filled: bool, venue: string, replies: nat -> Reply, k: nat) {
    var reply := replies(k);
    filled == (reply.httpStatus == 200 && reply.status == "filled" && reply.venue == venue)
  }

  /** Exactly the orders among the first `n` that were filled as wanted, or that were not. */
  ghost predicate AreThose(numbers: seq<nat>, filled: bool, venue: string, replies: nat -> Reply, n: nat) {
    && Increasing(numbers)
    && (forall i :: 0 <= i < |numbers| ==> numbers[i] < n && Came(filled, venue, replies, numbers[i]))
    && (forall k: nat :: k < n && Came(filled, venue, replies, k) ==> k in numbers)
  }

  /** Sends the orders one by one and sorts them, by number, into the filled and the others. */
  method LaunchCampaign(c: Config, r: Row, replies: nat -> Reply)
    returns (orders: seq<Order>, successes: seq<nat>, failures: seq<nat>)
    ensures var n := if c.orderCount < 0 then 0 else c.orderCount;
            && |orders| == n && AreOrders(orders, SideSequence(r.direction, n), r.venue)
            && AreThose(successes, true, r.venue, replies, n) && AreThose(failures, false, r.venue, replies, n)
            && |successes| == CountFills(r.venue, replies, n) && |successes| + |failures| == n
  {
    hide AreThose, SideSequence;
    orders, successes, failures := [], [], [];
    NoReplyYet(true, r.venue, replies);
    NoReplyYet(false, r.venue, replies);
    var sides := SideSequence(r.direction, OrderCount(c));
    for i := 0 to OrderCount(c)
      invariant |orders| == i && AreOrders(orders, sides, r.venue)
      invariant AreThose(successes, true, r.venue, replies, i) && AreThose(failures, false, r.venue, replies, i)
      invariant |successes| == CountFills(r.venue, replies, i) && |successes| + |failures| == i
    {
      orders := orders + [Order(sides[i], r.venue)];
      NextReply(successes, true, r.venue, replies, i);
      NextReply(failures, false, r.venue, replies, i);
      if FilledAt(r.venue, replies(i)) {
        successes := successes + [i];
      } else {
        failures := failures + [i];
      }
    }
  }

  lemma NoReplyYet(filled: bool, venue: string, replies: nat -> Reply)
    ensures AreThose([], filled, venue, replies, 0)
  {
  }

  lemma NextReply(numbers: seq<nat>, filled: bool, venue: string, replies: nat -> Reply, n: nat)
    requires AreThose(numbers, filled, venue, replies, n)
    ensures AreThose(if Came(filled, venue, replies, n) then numbers + [n] else numbers, filled, venue, replies, n + 1)
  {
    var more := numbers + [n];
    forall k: nat | k < n && Came(filled, venue, replies, k) ensures k in more {
      var i :| 0 <= i < |numbers| && numbers[i] == k;
      assert more[i] == k;
    }
    assert more[|numbers|] == n;
  }

  method RememberCampaign(c: Config, s: State, key: string, r: Record) returns (after: State)
    ensures Remembers(ProcessedKeys(s, c), key, c.maxHistory, after.processed)
    ensures after == s.(processed := after.processed, history := LastItems(s.history + [r], c.maxHistory))
  {
    var keys := ListOf(ProcessedKeys(s, c));
    ghost var order := keys;
    if key !in keys {
      keys := keys + [key];
    }
    after := s.(processed := LastItems(keys, c.maxHistory), history := LastItems(s.history + [r], c.maxHistory));
    assert after.processed == LastItems(WithKey(order, key), c.maxHistory);
  }

  /** The end of a run that launches: the campaign, then the state it saves. */
  method LaunchAndSave(c: Config, state: State, t: Tick, r: Row, regime: Option<Row>) returns (o: Outcome, after: State)
    requires EventKeyOf(r, c).Some?
    ensures o == Launched(r, regime, Fills(c, t, r) >= c.minSuccess)
    ensures Writes(c, state, t, o, after)
  {
    hide AreThose, AreOrders, SideSequence, Remembers, ProcessedKeys, EventKeyOf, LastItems, CountFills;
    var key := EventKeyOf(r, c);
    var _, successes, failures := LaunchCampaign(c, r, t.replies);
    o := Launched(r, regime, |successes| >= c.minSuccess);
    after := state;
    if |successes| < c.minSuccess {
      after := state.(launched := false, blocked := Some(r.stamp), reaction := Some(r));
      return;
    }
    if key.Some? {
      after := RememberCampaign(c, state, key.value, Record(key.value, r, regime, |successes|, |failures|));
    }
    after := after.(launched := true, reaction := Some(r));
  }

  /** One run of the launcher. */
  method RunOnce(c: Config, state: State, t: Tick) returns (o: Outcome, after: State)
    requires ValidConfig(c)
    ensures Step(c, state, t, o, after)
  {
    after := state;
    if state.launched && !c.allowMultiple {
      return Skipped(AlreadyLaunched), after;
    }
    var raised, latest := LatestReaction(t.log, c);
    if raised {
      return Raised, after;
    }
    if latest.None? {
      return Skipped(NoReaction), after;
    }
    LatestIsRelevant(t.log, c);
    var r := latest.value;
    if t.now - TimeOf(r) > c.maxAge {
      return Skipped(Stale), after;
    }
    if !ClassWanted(r, c) {
      return Skipped(ClassMismatch), after;
    }
    var key := EventKeyOf(r, c);
    if key.Some? && key.value in ProcessedKeys(state, c) {
      return Skipped(AlreadyProcessed), after;
    }
    if state.blocked == Some(r.stamp) {
      return Skipped(BlockedTime), after;
    }
    var regimeRaised, best := LauncherScan(t.regimes, (r.venue, c.instrument), TimeOf(r), c.maxAge);
    if regimeRaised {
      return Raised, after;
    }
    var regime := if best.Some? then Some(best.value.row) else None;
    if !RegimeWanted(regime, c) {
      return Skipped(RegimeMismatch), after;
    }
    o, after := LaunchAndSave(c, state, t, r, regime);
  }

  // ------------------------------------------------------------ what is launched, and when

  /** The reaction a run goes by: the first of the latest rows for a wanted venue. */
  ghost predicate IsLatestReaction(rows: seq<Row>, c: Config, r: Row) {
    exists i :: IsFirstOfLatest(rows, c, i) && rows[i] == r
  }

  ghost predicate IsFirstOfLatest(rows: seq<Row>, c: Config, i: int) {
    && 0 <= i < |rows| && Wanted(rows[i], c) && rows[i].time.Some?
    && forall j :: 0 <= j < |rows| && Wanted(rows[j], c) && rows[j].time.Some? ==>
         rows[j].time.value < rows[i].time.value || (rows[j].time == rows[i].time && i <= j)
  }

  predicate Wanted(r: Row, c: Config) {
    r.venue in c.venues && r.instrument == c.instrument && r.stamp != ""
  }

  /** A row for a wanted venue, or for the reaction's venue, whose time does not parse. */
  predicate LogUnreadable(rows: seq<Row>, c: Config) {
    exists i :: 0 <= i < |rows| && Wanted(rows[i], c) && rows[i].time.None?
  }

  predicate RegimesUnreadable(rows: seq<Row>, venue: string, instrument: string) {
    exists i :: 0 <= i < |rows| && Concerns(rows[i], venue, instrument) && rows[i].time.None?
  }

  predicate Concerns(r: Row, venue: string, instrument: string) {
    r.venue == venue && r.instrument == instrument && r.stamp != ""
  }

  lemma LatestIsTheReaction(rows: seq<Row>, c: Config)
    requires !LogUnreadable(rows, c)
    ensures !Unreadable(rows, c)
    ensures Latest(rows, c).None? ==> forall j :: 0 <= j < |rows| ==> !Wanted(rows[j], c)
    ensures Latest(rows, c).Some? ==> IsLatestReaction(rows, c, Latest(rows, c).value)
  {
    assert forall i :: 0 <= i < |rows| ==> (Relevant(rows[i], c) <==> Wanted(rows[i], c));
    var i := FirstOfLatest(rows, c);
  }

  lemma {:induction false} FirstOfLatest(rows: seq<Row>, c: Config) returns (i: int)
    requires forall i :: 0 <= i < |rows| && Wanted(rows[i], c) ==> rows[i].time.Some?
    ensures Latest(rows, c).None? ==> forall j :: 0 <= j < |rows| ==> !Wanted(rows[j], c)
    ensures Latest(rows, c).Some? ==> IsFirstOfLatest(rows, c, i) && rows[i] == Latest(rows, c).value
  {
    i := 0;
    if rows != [] {
      var init, last := rows[..|rows| - 1], rows[|rows| - 1];
      assert rows == init + [last];
      var k := FirstOfLatest(init, c);
      NextReaction(init, last, c, Latest(init, c), k);
      i := if Displaced(Latest(init, c), last, c) then |init| else k;
    }
  }

  predicate Displaced(best: Option<Row>, last: Row, c: Config) {
    Wanted(last, c) && last.time.Some?
    && (best.None? || best.value.time.None? || last.time.value > best.value.time.value)
  }

  lemma NextReaction(init: seq<Row>, last: Row, c: Config, best: Option<Row>, k: int)
    requires Wanted(last, c) ==> last.time.Some?
    requires best.None? ==> forall j :: 0 <= j < |init| ==> !Wanted(init[j], c)
    requires best.Some? ==> IsFirstOfLatest(init, c, k) && init[k] == best.value
    ensures var more := init + [last];
            if Displaced(best, last, c) then IsFirstOfLatest(more, c, |init|)
            else if best.Some? then IsFirstOfLatest(more, c, k) && more[k] == best.value
            else forall j :: 0 <= j < |more| ==> !Wanted(more[j], c)
  {
    var more := init + [last];
    assert more[|init|] == last && forall j :: 0 <= j < |init| ==> more[j] == init[j];
  }

  /** Recent enough, and of a class that is asked for, if any is. */
  predicate IsFreshAndWanted(c: Config, t: Tick, r: Row) {
    && r.time.Some? && t.now - r.time.value <= c.maxAge
    && (c.targetClasses != {} ==> c.upper(r.tag) in c.targetClasses)
  }

  /** The first written of the latest regime rows not after the reaction, if recent enough. */
  ghost predicate IsRegimeOf(found: Option<Row>, c: Config, t: Tick, r: Row)
    requires r.time.Some?
  {
    match found
    case None =>
      forall j :: 0 <= j < |t.regimes| && Candidate(t.regimes[j], (r.venue, c.instrument), r.time.value) ==>
        r.time.value - t.regimes[j].time.value > c.maxAge
    case Some(g) =>
      exists i :: IsFirstLatest(t.regimes, (r.venue, c.instrument), r.time.value, i) && g == t.regimes[i]
                  && r.time.value - g.time.value <= c.maxAge
  }

  /** The regime is one that is asked for, if any is. */
  predicate RegimeFits(found: Option<Row>, c: Config) {
    c.targetRegimes != {} ==> found.Some? && c.upper(found.value.tag) in c.targetRegimes
  }

  /** What holds a reaction back: the failure of a launch for the same time, or a launch of the
      same event, remembered in the list or as the last one. */
  predicate HeldBack(c: Config, s: State, r: Row) {
    || s.blocked == Some(r.stamp)
    || KeyOf(r, c) in s.processed
    || (s.launched && s.reaction.Some? && s.reaction.value.venue != "" && s.reaction.value.stamp != ""
        && KeyOf(s.reaction.value, c) == KeyOf(r, c))
  }

  /** The text that identifies an event. */
  function KeyOf(r: Row, c: Config): string {
    r.venue + "|" + (if r.instrument != "" then r.instrument else c.instrument) + "|" + r.stamp + "|" + r.tag
  }

  lemma HeldBackIs(c: Config, s: State, r: Row)
    requires r.venue != "" && r.stamp != ""
    ensures HeldBack(c, s, r) <==>
            s.blocked == Some(r.stamp) || EventKeyOf(r, c).value in ProcessedKeys(s, c)
  {
    assert EventKeyOf(r, c) == Some(KeyOf(r, c)) && |KeyOf(r, c)| > 0;
  }

  lemma RegimeIsTheFirstLatest(c: Config, t: Tick, r: Row)
    requires r.time.Some? && r.venue != "" && c.instrument != ""
    ensures IsRegimeOf(RegimeFor(r, t.regimes, c), c, t, r)
  {
    var key := (r.venue, c.instrument);
    ScanFindsFirstLatest(t.regimes, key, r.time.value, c.maxAge);
    var best := Scan(t.regimes, key, r.time.value, c.maxAge);
    if best.Some? {
      var i :| IsFirstLatest(t.regimes, key, r.time.value, i)
               && best.value == Entry(t.regimes[i].time.value, t.regimes[i]);
      assert RegimeFor(r, t.regimes, c) == Some(t.regimes[i]);
    }
  }

  /** When a run launches: exactly if no success forbids it, both logs can be read, and the latest
      reaction is fresh, wanted, not held back, and in a wanted regime. */
  lemma LaunchesExactly(c: Config, s: State, t: Tick)
    requires ValidConfig(c)
    ensures var latest := Latest(t.log, c);
            Decide(c, s, t).Launched?
            <==> && (!s.launched || c.allowMultiple) && !LogUnreadable(t.log, c) && latest.Some?
                 && IsFreshAndWanted(c, t, latest.value) && !HeldBack(c, s, latest.value)
                 && !RegimesUnreadable(t.regimes, latest.value.venue, c.instrument)
                 && RegimeFits(RegimeFor(latest.value, t.regimes, c), c)
    ensures Decide(c, s, t).Raised?
            ==> LogUnreadable(t.log, c)
                || (Latest(t.log, c).Some? && RegimesUnreadable(t.regimes, Latest(t.log, c).value.venue, c.instrument))
  {
    LatestIsRelevant(t.log, c);
    if !LogUnreadable(t.log, c) {
      LatestIsTheReaction(t.log, c);
      if Latest(t.log, c).Some? {
        var r := Latest(t.log, c).value;
        HeldBackIs(c, s, r);
        RegimeIsTheFirstLatest(c, t, r);
        assert RegimeUnreadable(t.regimes, (r.venue, c.instrument))
               <==> RegimesUnreadable(t.regimes, r.venue, c.instrument) by {
          UnreadableAlike(t.regimes, r.venue, c.instrument);
        }
      }
    } else {
      assert Unreadable(t.log, c);
    }
  }

  lemma UnreadableAlike(rows: seq<Row>, venue: string, instrument: string)
    ensures RegimeUnreadable(rows, (venue, instrument)) <==> RegimesUnreadable(rows, venue, instrument)
  {
    if RegimeUnreadable(rows, (venue, instrument)) {
      var i :| 0 <= i < |rows| && Addresses(rows[i], (venue, instrument)) && rows[i].time.None?;
      assert Concerns(rows[i], venue, instrument);
    }
    if RegimesUnreadable(rows, venue, instrument) {
      var i :| 0 <= i < |rows| && Concerns(rows[i], venue, instrument) && rows[i].time.None?;
      assert Addresses(rows[i], (venue, instrument));
    }
  }

  /** What is launched: the latest reaction, with its regime, and a success if enough orders are filled. */
  ghost predicate IsLaunchOf(c: Config, s: State, t: Tick, o: Outcome)
    requires o.Launched?
  {
    && (!s.launched || c.allowMultiple)
    && IsLatestReaction(t.log, c, o.reaction)
    && IsFreshAndWanted(c, t, o.reaction)
    && !HeldBack(c, s, o.reaction)
    && IsRegimeOf(o.regime, c, t, o.reaction) && RegimeFits(o.regime, c)
    && forall numbers ::
         AreThose(numbers, true, o.reaction.venue, t.replies, if c.orderCount < 0 then 0 else c.orderCount) ==>
           (o.success <==> |numbers| >= c.minSuccess)
  }

  lemma LaunchIsRight(c: Config, s: State, t: Tick)
    requires ValidConfig(c) && Decide(c, s, t).Launched?
    ensures IsLaunchOf(c, s, t, Decide(c, s, t))
  {
    LaunchesExactly(c, s, t);
    LatestIsRelevant(t.log, c);
    LatestIsTheReaction(t.log, c);
    var o := Decide(c, s, t);
    RegimeIsTheFirstLatest(c, t, o.reaction);
    forall numbers | AreThose(numbers, true, o.reaction.venue, t.replies, OrderCount(c))
      ensures o.success <==> |numbers| >= c.minSuccess
    {
      FillsAreCounted(numbers, o.reaction.venue, t.replies, OrderCount(c));
    }
  }

  lemma {:induction false} FillsAreCounted(numbers: seq<nat>, venue: string, replies: nat -> Reply, n: nat)
    requires AreThose(numbers, true, venue, replies, n)
    ensures |numbers| == CountFills(venue, replies, n)
  {
    if n > 0 {
      if Came(true, venue, replies, n - 1) {
        var init, last := numbers[..|numbers| - 1], numbers[|numbers| - 1];
        var i :| 0 <= i < |numbers| && numbers[i] == n - 1;
        assert i == |numbers| - 1;
        forall k: nat | k < n - 1 && Came(true, venue, replies, k) ensures k in init {
          var j :| 0 <= j < |numbers| && numbers[j] == k;
          assert init[j] == k;
        }
        FillsAreCounted(init, venue, replies, n - 1);
      } else {
        FillsAreCounted(numbers, venue, replies, n - 1);
      }
    }
  }

  // ------------------------------------------------------------ sequences of runs

  datatype Trace = Trace(states: seq<State>, ticks: seq<Tick>, outcomes: seq<Outcome>)

  ghost predicate IsTrace(c: Config, tr: Trace) {
    && |tr.states| == |tr.ticks| + 1 && |tr.outcomes| == |tr.ticks|
    && forall i :: 0 <= i < |tr.ticks| ==> Step(c, tr.states[i], tr.ticks[i], tr.outcomes[i], tr.states[i + 1])
  }

  /** The reaction log is only ever appended to. */
  ghost predicate AppendOnly(tr: Trace) {
    forall i, j :: 0 <= i < j < |tr.ticks| ==> tr.ticks[i].log <= tr.ticks[j].log
  }

  ghost predicate LaunchedAt(tr: Trace, i: int) {
    0 <= i < |tr.outcomes| && tr.outcomes[i].Launched?
  }

  /** Over whole traces: every launch is of the latest reaction at that time, fresh, wanted and not
      held back by the state then, in a wanted regime. */
  lemma EveryLaunchIsRight(c: Config, tr: Trace, i: nat)
    requires ValidConfig(c) && IsTrace(c, tr) && LaunchedAt(tr, i)
    ensures IsLaunchOf(c, tr.states[i], tr.ticks[i], tr.outcomes[i])
  {
    assert Step(c, tr.states[i], tr.ticks[i], tr.outcomes[i], tr.states[i + 1]);
    LaunchIsRight(c, tr.states[i], tr.ticks[i]);
  }

  lemma ReactionIsUnique(rows: seq<Row>, c: Config, r: Row)
    requires !LogUnreadable(rows, c) && IsLatestReaction(rows, c, r)
    ensures Latest(rows, c) == Some(r)
  {
    LatestIsTheReaction(rows, c);
    var i :| IsFirstOfLatest(rows, c, i) && rows[i] == r;
    var k :| IsFirstOfLatest(rows, c, k) && rows[k] == Latest(rows, c).value;
    assert i == k;
  }

  lemma RegimeIsUnique(c: Config, t: Tick, r: Row, found: Option<Row>)
    requires r.time.Some? && r.venue != "" && c.instrument != "" && IsRegimeOf(found, c, t, r)
    ensures found == RegimeFor(r, t.regimes, c)
  {
    var key, other := (r.venue, c.instrument), RegimeFor(r, t.regimes, c);
    RegimeIsTheFirstLatest(c, t, r);
    if found.Some? {
      var i :| IsFirstLatest(t.regimes, key, r.time.value, i) && found.value == t.regimes[i]
               && r.time.value - found.value.time.value <= c.maxAge;
      if other.Some? {
        var k :| IsFirstLatest(t.regimes, key, r.time.value, k) && other.value == t.regimes[k];
        FirstLatestUnique(t.regimes, key, r.time.value, i, k);
      }
    }
  }

  /** And nothing else holds a launch up: a reaction that meets all of this is launched. */
  lemma NothingElseHoldsUp(c: Config, tr: Trace, i: nat, r: Row, regime: Option<Row>)
    requires ValidConfig(c) && IsTrace(c, tr) && i < |tr.ticks|
    requires !tr.states[i].launched || c.allowMultiple
    requires !LogUnreadable(tr.ticks[i].log, c) && IsLatestReaction(tr.ticks[i].log, c, r)
    requires IsFreshAndWanted(c, tr.ticks[i], r) && !HeldBack(c, tr.states[i], r)
    requires !RegimesUnreadable(tr.ticks[i].regimes, r.venue, c.instrument)
    requires IsRegimeOf(regime, c, tr.ticks[i], r) && RegimeFits(regime, c)
    ensures LaunchedAt(tr, i) && tr.outcomes[i].reaction == r && tr.outcomes[i].regime == regime
  {
    assert Step(c, tr.states[i], tr.ticks[i], tr.outcomes[i], tr.states[i + 1]);
    ReactionIsUnique(tr.ticks[i].log, c, r);
    RegimeIsUnique(c, tr.ticks[i], r, regime);
    LaunchesExactly(c, tr.states[i], tr.ticks[i]);
  }

  /** Nothing changes between launches. */
  lemma {:induction false} QuietBetween(c: Config, tr: Trace, i: nat, j: nat)
    requires IsTrace(c, tr) && i <= j <= |tr.ticks|
    requires forall k :: i <= k < j ==> !LaunchedAt(tr, k)
    ensures tr.states[j] == tr.states[i]
  {
    if i < j {
      assert !LaunchedAt(tr, j - 1);
      QuietBetween(c, tr, i, j - 1);
    }
  }

  /** A state written for `r` holds back every later run that still sees `r`: by its key after
      a success, by its time after a failure. The remembered key list is not needed for this. */
  lemma LaunchGuardsItself(c: Config, s: State, t: Tick, o: Outcome, after: State, later: Tick)
    requires ValidConfig(c) && Step(c, s, t, o, after) && o.Launched?
    ensures var again := Decide(c, after, later);
            !(again.Launched? && again.reaction == o.reaction)
  {
    LatestIsRelevant(t.log, c);
    assert EventKeyOf(o.reaction, c).Some?;
    if o.success {
      assert EventKeyOf(o.reaction, c).value in ProcessedKeys(after, c);
    }
  }

  lemma LaunchedRowIsLatest(c: Config, s: State, t: Tick)
    requires Decide(c, s, t).Launched?
    ensures Latest(t.log, c) == Some(Decide(c, s, t).reaction)
  {
  }

  lemma {:induction false} NextLaunchIsLater(c: Config, tr: Trace, i: nat, j: nat)
    requires ValidConfig(c) && IsTrace(c, tr) && AppendOnly(tr) && i < j
    requires LaunchedAt(tr, i) && LaunchedAt(tr, j)
    requires forall k :: i < k < j ==> !LaunchedAt(tr, k)
    ensures TimeOf(tr.outcomes[i].reaction) < TimeOf(tr.outcomes[j].reaction)
  {
    QuietBetween(c, tr, i + 1, j);
    assert Step(c, tr.states[i], tr.ticks[i], tr.outcomes[i], tr.states[i + 1]);
    assert Step(c, tr.states[j], tr.ticks[j], tr.outcomes[j], tr.states[j + 1]);
    LaunchGuardsItself(c, tr.states[i], tr.ticks[i], tr.outcomes[i], tr.states[i + 1], tr.ticks[j]);
    LaunchedRowIsLatest(c, tr.states[i], tr.ticks[i]);
    LaunchedRowIsLatest(c, tr.states[j], tr.ticks[j]);
    LatestAdvances(tr.ticks[i].log, tr.ticks[j].log, c);
  }

  /** At most one launch per reaction: from any starting state, for any history size, launched
      reactions are strictly later and later. */
  lemma {:induction false} LaunchesAdvance(c: Config, tr: Trace, i: nat, j: nat)
    requires ValidConfig(c) && IsTrace(c, tr) && AppendOnly(tr)
    requires i < j && LaunchedAt(tr, i) && LaunchedAt(tr, j)
    ensures TimeOf(tr.outcomes[i].reaction) < TimeOf(tr.outcomes[j].reaction)
    ensures tr.outcomes[i].reaction != tr.outcomes[j].reaction
    decreases j - i
  {
    if k :| i < k < j && LaunchedAt(tr, k) {
      LaunchesAdvance(c, tr, i, k);
      LaunchesAdvance(c, tr, k, j);
    } else {
      NextLaunchIsLater(c, tr, i, j);
    }
  }

  /** With multiple campaigns disallowed, a success is the last thing that ever happens. */
  lemma {:induction false} SuccessIsFinal(c: Config, tr: Trace, i: nat, j: nat)
    requires IsTrace(c, tr) && !c.allowMultiple
    requires i < j <= |tr.ticks| && LaunchedAt(tr, i) && tr.outcomes[i].success
    ensures tr.states[j] == tr.states[i + 1] && tr.states[j].launched
    ensures j < |tr.ticks| ==> tr.outcomes[j] == Skipped(AlreadyLaunched)
  {
    assert Step(c, tr.states[i], tr.ticks[i], tr.outcomes[i], tr.states[i + 1]);
    if i + 1 < j {
      SuccessIsFinal(c, tr, i, j - 1);
      assert Step(c, tr.states[j - 1], tr.ticks[j - 1], tr.outcomes[j - 1], tr.states[j]);
    }
    if j < |tr.ticks| {
      assert Step(c, tr.states[j], tr.ticks[j], tr.outcomes[j], tr.states[j + 1]);
    }
  }

  // ------------------------------------------------------------ what is remembered

  /** The records of the successful launches of the first `n` runs, in order. */
  ghost function Successes(c: Config, tr: Trace, n: nat): seq<Record>
    requires IsTrace(c, tr) && n <= |tr.ticks|
  {
    if n == 0 then []
    else
      var o := tr.outcomes[n - 1];
      if o.Launched? && o.success then Successes(c, tr, n - 1) + [RecordOf(c, tr.ticks[n - 1], o)]
      else Successes(c, tr, n - 1)
  }

  lemma CutTwice<T>(items: seq<T>, x: T, max: int)
    requires max >= 0
    ensures LastItems(LastItems(items, max) + [x], max) == LastItems(items + [x], max)
  {
    if max > 0 && |items| > max {
      assert items[|items| - max..] + [x] == (items + [x])[|items| - max..];
    }
  }

  /** The history is exactly the most recent successes, oldest first. */
  lemma {:induction false} HistoryIsRecentSuccesses(c: Config, tr: Trace, n: nat)
    requires IsTrace(c, tr) && tr.states[0] == EMPTY && n <= |tr.ticks| && c.maxHistory >= 0
    ensures tr.states[n].history == LastItems(Successes(c, tr, n), c.maxHistory)
  {
    if n > 0 {
      HistoryIsRecentSuccesses(c, tr, n - 1);
      assert Step(c, tr.states[n - 1], tr.ticks[n - 1], tr.outcomes[n - 1], tr.states[n]);
      if tr.outcomes[n - 1].Launched? && tr.outcomes[n - 1].success {
        CutTwice(Successes(c, tr, n - 1), RecordOf(c, tr.ticks[n - 1], tr.outcomes[n - 1]), c.maxHistory);
      }
    }
  }

  ghost predicate HasKey(records: seq<Record>, key: string) {
    exists i :: 0 <= i < |records| && records[i].key == key
  }

  /** Every key the state holds back on is the key of one of these records. */
  ghost predicate AllKnown(c: Config, s: State, records: seq<Record>) {
    forall key :: key in ProcessedKeys(s, c) ==> HasKey(records, key)
  }

  lemma SuccessIsRemembered(c: Config, s: State, t: Tick, o: Outcome, after: State, before: seq<Record>)
    requires Step(c, s, t, o, after) && o.Launched? && o.success && c.maxHistory >= 0
    requires AllKnown(c, s, before)
    ensures AllKnown(c, after, before + [RecordOf(c, t, o)])
    ensures RecordOf(c, t, o).key in after.processed
    ensures c.maxHistory > 0 ==> |after.processed| <= c.maxHistory
  {
    var record := RecordOf(c, t, o);
    SuccessWrites(c, s, t, o, after);
    CutKeepsNewest(ProcessedKeys(s, c), record.key, c.maxHistory, after.processed);
    KeysAfterSuccess(c, after, ProcessedKeys(s, c), record.key);
    forall key | key in ProcessedKeys(after, c) ensures HasKey(before + [record], key) {
      KeyStays(before, record, key);
    }
  }

  lemma FailureForgetsNothingElse(c: Config, s: State, t: Tick, o: Outcome, after: State, before: seq<Record>)
    requires Step(c, s, t, o, after) && !(o.Launched? && o.success) && AllKnown(c, s, before)
    ensures AllKnown(c, after, before) && after.processed == s.processed
  {
    forall key | key in ProcessedKeys(after, c) ensures HasKey(before, key) {
      OnlySuccessRemembers(c, s, t, o, after, key);
    }
  }

  /** No key is remembered that was not launched successfully, and the newest always is,
      whatever order the set gave the others. */
  lemma {:induction false} RememberedWereLaunched(c: Config, tr: Trace, n: nat)
    requires IsTrace(c, tr) && tr.states[0] == EMPTY && n <= |tr.ticks| && c.maxHistory >= 0
    ensures AllKnown(c, tr.states[n], Successes(c, tr, n))
    ensures n > 0 && LaunchedAt(tr, n - 1) && tr.outcomes[n - 1].success ==>
              RecordOf(c, tr.ticks[n - 1], tr.outcomes[n - 1]).key in tr.states[n].processed
    ensures c.maxHistory > 0 ==> |tr.states[n].processed| <= c.maxHistory
  {
    if n > 0 {
      RememberedWereLaunched(c, tr, n - 1);
      var s, t, o, after := tr.states[n - 1], tr.ticks[n - 1], tr.outcomes[n - 1], tr.states[n];
      assert Step(c, s, t, o, after);
      if o.Launched? && o.success {
        SuccessIsRemembered(c, s, t, o, after, Successes(c, tr, n - 1));
      } else {
        FailureForgetsNothingElse(c, s, t, o, after, Successes(c, tr, n - 1));
      }
    }
  }

  lemma KeyStays(before: seq<Record>, record: Record, key: string)
    requires HasKey(before, key) || key == record.key
    ensures HasKey(before + [record], key)
  {
    var more := before + [record];
    assert more[|before|] == record;
    if HasKey(before, key) {
      var i :| 0 <= i < |before| && before[i].key == key;
      assert more[i] == before[i];
    }
  }

  /** Cutting the list never costs the newest key, and never adds one. */
  lemma CutKeepsNewest(known: set<string>, key: string, max: int, processed: seq<string>)
    requires max >= 0 && key !in known && Remembers(known, key, max, processed)
    ensures key in processed && forall k :: k in processed ==> k in known || k == key
    ensures max > 0 ==> |processed| <= max
  {
    var order :| Enumerates(order, known) && processed == LastItems(WithKey(order, key), max);
    assert processed[|processed| - 1] == key;
  }

  lemma KeysAfterSuccess(c: Config, after: State, known: set<string>, newest: string)
    requires after.launched && after.reaction.Some? && EventKeyOf(after.reaction.value, c) == Some(newest)
    requires c.maxHistory >= 0 && newest !in known && Remembers(known, newest, c.maxHistory, after.processed)
    ensures forall key :: key in ProcessedKeys(after, c) ==> key in known || key == newest
  {
    hide Remembers, EventKeyOf, LastItems;
    CutKeepsNewest(known, newest, c.maxHistory, after.processed);
    forall key | key in ProcessedKeys(after, c) ensures key in known || key == newest {
      assert key in after.processed || key == newest;
    }
  }

  lemma SuccessWrites(c: Config, s: State, t: Tick, o: Outcome, after: State)
    requires Step(c, s, t, o, after) && o.Launched? && o.success
    ensures after.launched && after.reaction == Some(o.reaction)
    ensures EventKeyOf(o.reaction, c) == Some(RecordOf(c, t, o).key)
    ensures RecordOf(c, t, o).key !in ProcessedKeys(s, c)
    ensures Remembers(ProcessedKeys(s, c), RecordOf(c, t, o).key, c.maxHistory, after.processed)
  {
  }

  lemma OnlySuccessRemembers(c: Config, s: State, t: Tick, o: Outcome, after: State, key: string)
    requires Step(c, s, t, o, after) && !(o.Launched? && o.success)
    ensures after.processed == s.processed
    ensures key in ProcessedKeys(after, c) ==> key in ProcessedKeys(s, c)
  {
  }

  // ------------------------------------------------------------ without an append-only log

  const UNANSWERED: nat -> Reply := _ => Reply(0, "", "")

  const DEMO: Config := Config({"v"}, "B", 10, 0, 0, true, 1, {}, {}, (s: string) => s)

  function DemoRow(time: int): Row {
    Row("v", "B", if time == 1 then "1" else "2", Some(time), "F", "up")
  }

  function DemoKey(time: int): string {
    "v" + "|" + "B" + "|" + (if time == 1 then "1" else "2") + "|" + "F"
  }

  /** A fresh reaction the state does not hold back is launched. */
  lemma DemoLaunch(s: State, rows: seq<Row>, time: int)
    requires time in {1, 2} && Latest(rows, DEMO) == Some(DemoRow(time)) && !Unreadable(rows, DEMO)
    requires s.blocked.None? && DemoKey(time) !in ProcessedKeys(s, DEMO)
    ensures Decide(DEMO, s, Tick(rows, [], 3, UNANSWERED)) == Launched(DemoRow(time), None, true)
  {
  }

  lemma DemoKeysDiffer()
    ensures DemoKey(1) != DemoKey(2) && DemoKey(1) != "" && DemoKey(2) != ""
  {
    assert DemoKey(1)[4] == '1' && DemoKey(2)[4] == '2';
  }

  /** After a launch with a history of one, only that launch is held back. */
  lemma DemoAfter(s: State, t: Tick, time: int, after: State)
    requires Step(DEMO, s, t, Launched(DemoRow(time), None, true), after) && s.blocked.None? && time in {1, 2}
    ensures after.blocked.None? && ProcessedKeys(after, DEMO) == {DemoKey(time)}
  {
    var key := DemoKey(time);
    assert EventKeyOf(DemoRow(time), DEMO) == Some(key);
    SuccessWrites(DEMO, s, t, Launched(DemoRow(time), None, true), after);
    CutKeepsNewest(ProcessedKeys(s, DEMO), key, 1, after.processed);
    assert after.processed == [key];
    DemoKeysDiffer();
  }

  /** A history of one and a log that loses a row: after a and b, a is launched a second time. */
  lemma LostRowsRelaunch(tr: Trace)
    requires IsTrace(DEMO, tr) && tr.states[0] == EMPTY
    requires tr.ticks == [Tick([DemoRow(1)], [], 3, UNANSWERED), Tick([DemoRow(1), DemoRow(2)], [], 3, UNANSWERED),
                          Tick([DemoRow(1)], [], 3, UNANSWERED)]
    ensures LaunchedAt(tr, 0) && LaunchedAt(tr, 1) && LaunchedAt(tr, 2)
    ensures tr.outcomes[2].reaction == tr.outcomes[0].reaction
  {
    DemoKeysDiffer();
    assert [DemoRow(1), DemoRow(2)][..1] == [DemoRow(1)];
    assert Step(DEMO, tr.states[0], tr.ticks[0], tr.outcomes[0], tr.states[1]);
    DemoLaunch(tr.states[0], tr.ticks[0].log, 1);
    DemoAfter(tr.states[0], tr.ticks[0], 1, tr.states[1]);
    assert Step(DEMO, tr.states[1], tr.ticks[1], tr.outcomes[1], tr.states[2]);
    DemoLaunch(tr.states[1], tr.ticks[1].log, 2);
    DemoAfter(tr.states[1], tr.ticks[1], 2, tr.states[2]);
    assert Step(DEMO, tr.states[2], tr.ticks[2], tr.outcomes[2], tr.states[3]);
    DemoLaunch(tr.states[2], tr.ticks[2].log, 1);
  }
}
