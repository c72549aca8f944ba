/** Circuit breakers in front of the model providers, and the retry loop that feeds them. */
module CircuitBreaker {
  import opened Basics

  datatype Circuit = Circuit(failures: nat, openedUntil: Option<int>)

  const CLOSED: Circuit := Circuit(0, None)

  /** What is recorded about one provider, with the clock reading of a failure. */
  datatype Event = Failure(at: int) | Success

  datatype Settings = Settings(threshold: int, resetSeconds: int, retries: int)

  // ------------------------------------------------------------ meaning of a history

  function FailuresSinceSuccess(history: seq<Event>): nat {
    if history == [] || history[|history| - 1].Success? then 0
    else 1 + FailuresSinceSuccess(history[..|history| - 1])
  }

  /** Open at `now`: enough failures since the last success, and the latest one still recent. */
  predicate IsOpenAt(c: Settings, history: seq<Event>, now: int) {
    && 1 <= FailuresSinceSuccess(history)
    && c.threshold <= FailuresSinceSuccess(history)
    && history[|history| - 1].Failure?
    && now < history[|history| - 1].at + c.resetSeconds
  }

  /** The count is the length of the longest run of failures at the end of the history. */
  lemma {:induction false} FailuresAreTheLastEvents(history: seq<Event>)
    ensures var n := FailuresSinceSuccess(history);
            && n <= |history|
            && (forall i :: |history| - n <= i < |history| ==> history[i].Failure?)
            && (n < |history| ==> history[|history| - n - 1].Success?)
  {
    if history != [] && history[|history| - 1].Failure? {
      var init := history[..|history| - 1];
      FailuresAreTheLastEvents(init);
      assert forall i :: 0 <= i < |init| ==> init[i] == history[i];
    }
  }

  /** What the state records of a history. */
  predicate Reflects(c: Settings, s: Circuit, history: seq<Event>) {
    && s.failures == FailuresSinceSuccess(history)
    && (s.openedUntil.Some? <==> 1 <= s.failures && c.threshold <= s.failures)
    && (s.openedUntil.Some? ==>
          history[|history| - 1].Failure? && s.openedUntil.value == history[|history| - 1].at + c.resetSeconds)
  }

  lemma FailureStep(history: seq<Event>, at: int)
    ensures FailuresSinceSuccess(history + [Failure(at)]) == FailuresSinceSuccess(history) + 1
  {
    assert (history + [Failure(at)])[..|history|] == history;
  }

  // ------------------------------------------------------------ what one run records

  /** What one call to the provider comes to. */
  datatype Attempt = Reply(text: string) | Failing(at: int)

  datatype Result = Answered(text: string, retriesUsed: nat) | Refused | Failed

  /** Everything up to and including the first reply. */
  function Recorded(attempts: seq<Attempt>): seq<Event> {
    if attempts == [] then []
    else if attempts[0].Reply? then [Success]
    else [Failure(attempts[0].at)] + Recorded(attempts[1..])
  }

  function ResultOf(attempts: seq<Attempt>, used: nat): Result {
    if attempts == [] then Failed
    else if attempts[0].Reply? then Answered(attempts[0].text, used)
    else ResultOf(attempts[1..], used + 1)
  }

  /** The calls a run may make; a negative retry setting leaves none. */
  function Planned(c: Settings, attempts: seq<Attempt>): seq<Attempt>
    requires c.retries < |attempts|
  {
    if c.retries < 0 then [] else attempts[..c.retries + 1]
  }

  lemma {:induction false} RecordedSplit(attempts: seq<Attempt>, i: nat)
    requires i <= |attempts| && forall k :: 0 <= k < i ==> attempts[k].Failing?
    ensures Recorded(attempts) == Recorded(attempts[..i]) + Recorded(attempts[i..])
    ensures |Recorded(attempts[..i])| == i
    ensures ResultOf(attempts, 0) == ResultOf(attempts[i..], i)
  {
    RecordedSplitFrom(attempts, i, 0);
  }

  lemma {:induction false} RecordedSplitFrom(attempts: seq<Attempt>, i: nat, used: nat)
    requires i <= |attempts| && forall k :: 0 <= k < i ==> attempts[k].Failing?
    ensures Recorded(attempts) == Recorded(attempts[..i]) + Recorded(attempts[i..])
    ensures |Recorded(attempts[..i])| == i
    ensures ResultOf(attempts, used) == ResultOf(attempts[i..], used + i)
  {
    if i > 0 {
      var rest := attempts[1..];
      RecordedSplitFrom(rest, i - 1, used + 1);
      assert attempts[..i][1..] == rest[..i - 1] && attempts[i..] == rest[i - 1..];
      assert Recorded(attempts) == [Failure(attempts[0].at)] + Recorded(rest);
      assert Recorded(attempts[..i]) == [Failure(attempts[0].at)] + Recorded(rest[..i - 1]);
    } else {
      assert attempts[0..] == attempts;
    }
  }

  lemma RecordedFailure(attempts: seq<Attempt>, i: nat)
    requires i < |attempts| && forall k :: 0 <= k <= i ==> attempts[k].Failing?
    ensures Recorded(attempts[..i + 1]) == Recorded(attempts[..i]) + [Failure(attempts[i].at)]
  {
    RecordedSplit(attempts[..i + 1], i);
    assert attempts[..i + 1][..i] == attempts[..i] && attempts[..i + 1][i..] == [attempts[i]];
    assert Recorded([attempts[i]]) == [Failure(attempts[i].at)] + Recorded([]);
  }

  /** The history of a run under way: `i` calls made, none answered. */
  ghost predicate Waiting(before: seq<Event>, now: seq<Event>, attempts: seq<Attempt>, i: nat) {
    i <= |attempts| && (forall k :: 0 <= k < i ==> attempts[k].Failing?) && now == before + Recorded(attempts[..i])
  }

  lemma StillWaiting(before: seq<Event>, now: seq<Event>, attempts: seq<Attempt>, i: nat)
    requires Waiting(before, now, attempts, i) && i < |attempts| && attempts[i].Failing?
    ensures Waiting(before, now + [Failure(attempts[i].at)], attempts, i + 1)
  {
    RecordedFailure(attempts, i);
  }

  lemma ReplyEnds(before: seq<Event>, now: seq<Event>, attempts: seq<Attempt>, i: nat)
    requires Waiting(before, now, attempts, i) && i < |attempts| && attempts[i].Reply?
    ensures now + [Success] == before + Recorded(attempts) && |Recorded(attempts)| == i + 1
    ensures ResultOf(attempts, 0) == Answered(attempts[i].text, i)
  {
    RecordedSplit(attempts, i);
    assert Recorded(attempts[i..]) == [Success];
  }

  lemma NoReply(before: seq<Event>, now: seq<Event>, attempts: seq<Attempt>)
    requires Waiting(before, now, attempts, |attempts|)
    ensures now == before + Recorded(attempts) && |Recorded(attempts)| == |attempts|
    ensures ResultOf(attempts, 0) == Failed
  {
    RecordedSplit(attempts, |attempts|);
    assert attempts[..|attempts|] == attempts;
  }

  // ------------------------------------------------------------ the breakers

  class Breakers {
    const settings: Settings
    var circuits: map<string, Circuit>
    ghost var history: map<string, seq<Event>>

    constructor (settings: Settings)
      ensures Valid() && this.settings == settings && history == map[]
    {
      this.settings := settings;
      circuits, history := map[], map[];
    }

    ghost predicate Valid()
      reads this
    {
      && circuits.Keys == history.Keys
      && forall p :: p in circuits ==> Reflects(settings, circuits[p], history[p])
    }

    ghost function HistoryOf(p: string): seq<Event>
      reads this
    {
      if p in history then history[p] else []
    }

    method CircuitFor(p: string) returns (s: Circuit)
      requires Valid()
      modifies this
      ensures Valid() && p in circuits && circuits[p] == s
      ensures forall q :: HistoryOf(q) == old(HistoryOf(q))
    {
      if p !in circuits {
        circuits := circuits[p := CLOSED];
        history := history[p := []];
      }
      s := circuits[p];
    }

    method IsCircuitOpen(p: string, now: int) returns (open: bool)
      requires Valid()
      modifies this
      ensures Valid() && open == IsOpenAt(settings, HistoryOf(p), now)
      ensures forall q :: HistoryOf(q) == old(HistoryOf(q))
    {
      var s := CircuitFor(p);
      open := s.openedUntil.Some? && s.openedUntil.value > now;
    }

    method RecordFailure(p: string, now: int)
      requires Valid()
      modifies this
      ensures Valid() && HistoryOf(p) == old(HistoryOf(p)) + [Failure(now)]
      ensures forall q :: q != p ==> HistoryOf(q) == old(HistoryOf(q))
    {
      var s := CircuitFor(p);
      FailureStep(HistoryOf(p), now);
      s := s.(failures := s.failures + 1);
      if s.failures >= settings.threshold {
        s := s.(openedUntil := Some(now + settings.resetSeconds));
      }
      circuits := circuits[p := s];
      history := history[p := HistoryOf(p) + [Failure(now)]];
    }

    method RecordSuccess(p: string)
      requires Valid()
      modifies this
      ensures Valid() && HistoryOf(p) == old(HistoryOf(p)) + [Success]
      ensures forall q :: q != p ==> HistoryOf(q) == old(HistoryOf(q))
    {
      var s := CircuitFor(p);
      circuits := circuits[p := Circuit(0, None)];
      history := history[p := HistoryOf(p) + [Success]];
    }

    /** The calls of one request, until a reply or the last retry. */
    method CallWithRetries(p: string, planned: seq<Attempt>) returns (r: Result, calls: nat)
      requires Valid()
      modifies this
      ensures Valid()
      ensures forall q :: q != p ==> HistoryOf(q) == old(HistoryOf(q))
      ensures r == ResultOf(planned, 0) && calls == |Recorded(planned)|
      ensures HistoryOf(p) == old(HistoryOf(p)) + Recorded(planned)
    {
      ghost var before, sofar := HistoryOf(p), HistoryOf(p);
      calls := 0;
      for i := 0 to |planned|
        invariant calls == i && Valid() && sofar == HistoryOf(p)
        invariant Waiting(before, sofar, planned, i)
        invariant forall q :: q != p ==> HistoryOf(q) == old(HistoryOf(q))
      {
        calls := calls + 1;
        if planned[i].Reply? {
          RecordSuccess(p);
          ReplyEnds(before, sofar, planned, i);
          return Answered(planned[i].text, i), calls;
        }
        RecordFailure(p, planned[i].at);
        StillWaiting(before, sofar, planned, i);
        sofar := HistoryOf(p);
      }
      NoReply(before, sofar, planned);
      r := Failed;
    }

    /** One request. `attempts` is what each call to the provider would come to; `calls` is
        how many were made. Entered while open, none is; otherwise the calls go on until a
        reply or the last retry, whatever the breaker says meanwhile. */
    method RunWithResilience(p: string, now: int, attempts: seq<Attempt>) returns (r: Result, calls: nat)
      requires Valid() && settings.retries < |attempts|
      modifies this
      ensures Valid()
      ensures forall q :: q != p ==> HistoryOf(q) == old(HistoryOf(q))
      ensures old(IsOpenAt(settings, HistoryOf(p), now)) ==>
                r == Refused && calls == 0 && HistoryOf(p) == old(HistoryOf(p))
      ensures !old(IsOpenAt(settings, HistoryOf(p), now)) ==>
                && r == ResultOf(Planned(settings, attempts), 0)
                && calls == |Recorded(Planned(settings, attempts))|
                && HistoryOf(p) == old(HistoryOf(p)) + Recorded(Planned(settings, attempts))
    {
      var open := IsCircuitOpen(p, now);
      if open {
        return Refused, 0;
      }
      r, calls := CallWithRetries(p, Planned(settings, attempts));
    }
  }

  // ------------------------------------------------------------ consequences

  /** One failure is enough to reopen after expiry, and the last one before the threshold to
      open: then until its own reset time, whatever retries are still to come. */
  lemma NextFailureOpens(c: Settings, history: seq<Event>, at: int, now: int)
    requires c.threshold - 1 <= FailuresSinceSuccess(history)
    ensures IsOpenAt(c, history + [Failure(at)], now) <==> now < at + c.resetSeconds
  {
    FailureStep(history, at);
  }

  datatype Run = Run(now: int, attempts: seq<Attempt>)

  /** A sequence of requests to one provider. */
  function After(c: Settings, history: seq<Event>, runs: seq<Run>): seq<Event>
    requires forall i :: 0 <= i < |runs| ==> c.retries < |runs[i].attempts|
  {
    if runs == [] then history
    else
      var before, run := After(c, history, runs[..|runs| - 1]), runs[|runs| - 1];
      if IsOpenAt(c, before, run.now) then before else before + Recorded(Planned(c, run.attempts))
  }

  /** The provider answers nothing, all within one reset period from `since`. */
  ghost predicate IsOutage(c: Settings, runs: seq<Run>, since: int) {
    forall i :: 0 <= i < |runs| ==>
      && runs[i].now < since + c.resetSeconds
      && c.retries < |runs[i].attempts|
      && forall k :: 0 <= k < |runs[i].attempts| ==> runs[i].attempts[k].Failing? && since <= runs[i].attempts[k].at
  }

  lemma {:induction false} FailingRun(history: seq<Event>, attempts: seq<Attempt>, since: int)
    requires forall k :: 0 <= k < |attempts| ==> attempts[k].Failing? && since <= attempts[k].at
    ensures var after := history + Recorded(attempts);
            && |after| == |history| + |attempts|
            && FailuresSinceSuccess(after) == FailuresSinceSuccess(history) + |attempts|
            && (attempts != [] ==> after[|after| - 1].Failure? && since <= after[|after| - 1].at)
  {
    if attempts == [] {
      assert history + Recorded(attempts) == history;
    } else {
      var n := |attempts| - 1;
      FailingRun(history, attempts[..n], since);
      RecordedFailure(attempts, n);
      assert attempts[..n + 1] == attempts;
      var before := history + Recorded(attempts[..n]);
      assert history + Recorded(attempts) == before + [Failure(attempts[n].at)];
      FailureStep(before, attempts[n].at);
    }
  }

  /** How many of the requests are let in. */
  function LetIn(c: Settings, history: seq<Event>, runs: seq<Run>): nat
    requires forall i :: 0 <= i < |runs| ==> c.retries < |runs[i].attempts|
  {
    if runs == [] then 0
    else
      var earlier, run := runs[..|runs| - 1], runs[|runs| - 1];
      LetIn(c, history, earlier) + (if IsOpenAt(c, After(c, history, earlier), run.now) then 0 else 1)
  }

  /** The calls of `k` requests that make `size` each. */
  function Calls(k: nat, size: int): int {
    if k == 0 then 0 else Calls(k - 1, size) + size
  }

  /** The requests of `size` calls it takes to make `needed` calls. */
  function RoundsFor(needed: int, size: int): nat
    requires size > 0
  {
    if needed <= 0 then 0 else 1 + RoundsFor(needed - size, size)
  }

  /** The requests it takes to open the breaker from `count` failures on record, each of them
      failing all its calls. At the threshold already, one reopens it. */
  function Rounds(c: Settings, count: nat): nat
    requires c.retries >= 0
  {
    if count < c.threshold then RoundsFor(c.threshold - count, c.retries + 1) else 1
  }

  lemma {:induction false} CallsArePositive(k: nat, size: int)
    requires size > 0
    ensures Calls(k, size) >= k
  {
    if k > 0 {
      CallsArePositive(k - 1, size);
    }
  }

  /** `k` requests do not make up the calls needed exactly if it takes more requests. */
  lemma {:induction false} OneMoreRound(k: nat, size: int, needed: int)
    requires size > 0
    ensures Calls(k, size) < needed <==> k < RoundsFor(needed, size)
  {
    if k > 0 {
      OneMoreRound(k - 1, size, needed - size);
      CallsArePositive(k, size);
    }
  }

  /** In closed form: a product, and a quotient rounded up. */
  lemma RoundsAndCalls(k: nat, needed: nat, size: int)
    requires size > 0
    ensures Calls(k, size) == k * size
    ensures RoundsFor(needed, size) == (needed + size - 1) / size
  {
    CallsMultiply(k, size);
    RoundsDivide(needed, size);
  }

  lemma {:induction false} CallsMultiply(k: nat, size: int)
    ensures Calls(k, size) == k * size
  {
    if k > 0 {
      CallsMultiply(k - 1, size);
      assert (k - 1) * size + size == k * size;
    }
  }

  lemma {:induction false} RoundsDivide(needed: nat, size: int)
    requires size > 0
    ensures RoundsFor(needed, size) == (needed + size - 1) / size
  {
    if needed > size {
      RoundsDivide(needed - size, size);
      OneLess(needed - 1, size);
    } else if needed > 0 {
      assert RoundsFor(needed - size, size) == 0;
      OneLess(needed - 1, size);
      NoneWhole(needed - 1, size);
    } else {
      NoneWhole(size - 1, size);
    }
  }

  lemma NoneWhole(x: nat, size: int)
    requires x < size
    ensures x / size == 0
  {
  }

  lemma OneLess(x: int, size: int)
    requires size > 0
    ensures (x + size) / size == x / size + 1
  {
    var q, p := x / size, (x + size) / size;
    var r, t := x % size, (x + size) % size;
    assert x == q * size + r && x + size == p * size + t;
    var gap := p - q - 1;
    assert gap * size == p * size - q * size - size == r - t;
    if gap != 0 {
      LargeMultiple(gap, size);
    }
  }

  lemma LargeMultiple(gap: int, size: int)
    requires gap != 0 && size > 0
    ensures gap * size >= size || gap * size <= -size
  {
    if gap >= 1 {
      assert (gap - 1) * size >= 0;
    } else {
      assert (-1 - gap) * size >= 0;
    }
  }

  /** What every stretch of an outage leaves behind. */
  ghost predicate OutageFacts(c: Settings, history: seq<Event>, runs: seq<Run>, since: int)
    requires c.retries >= 0 && IsOutage(c, runs, since)
  {
    var after, k := After(c, history, runs), LetIn(c, history, runs);
    && |after| == |history| + Calls(k, c.retries + 1)
    && FailuresSinceSuccess(after) == FailuresSinceSuccess(history) + Calls(k, c.retries + 1)
    && k <= Rounds(c, FailuresSinceSuccess(history))
    && (k > 0 ==> after[|after| - 1].Failure? && since <= after[|after| - 1].at)
    && (k == 0 ==> after == history)
  }

  lemma {:induction false} EarlierOutage(c: Settings, runs: seq<Run>, since: int)
    requires runs != [] && IsOutage(c, runs, since)
    ensures IsOutage(c, runs[..|runs| - 1], since)
  {
    var earlier := runs[..|runs| - 1];
    assert forall i :: 0 <= i < |earlier| ==> earlier[i] == runs[i];
  }

  /** A request that is let in finds the threshold not yet reached, or is the first one. */
  lemma {:induction false} LetInBelow(c: Settings, history: seq<Event>, runs: seq<Run>, since: int, now: int)
    requires c.retries >= 0 && IsOutage(c, runs, since) && OutageFacts(c, history, runs, since)
    requires now < since + c.resetSeconds && !IsOpenAt(c, After(c, history, runs), now)
    ensures LetIn(c, history, runs) < Rounds(c, FailuresSinceSuccess(history))
  {
    var k, count := LetIn(c, history, runs), FailuresSinceSuccess(history);
    CallsArePositive(k, c.retries + 1);
    OneMoreRound(k, c.retries + 1, c.threshold - count);
  }

  lemma {:induction false} OutageSteps(c: Settings, history: seq<Event>, runs: seq<Run>, since: int)
    requires c.retries >= 0 && IsOutage(c, runs, since)
    ensures OutageFacts(c, history, runs, since)
  {
    if runs != [] {
      var earlier, run := runs[..|runs| - 1], runs[|runs| - 1];
      EarlierOutage(c, runs, since);
      OutageSteps(c, history, earlier, since);
      var h := After(c, history, earlier);
      if !IsOpenAt(c, h, run.now) {
        LetInBelow(c, history, earlier, since, run.now);
        FailingRun(h, Planned(c, run.attempts), since);
      }
    }
  }

  /** Over any sequence of requests in one reset period of an outage: each request let in makes
      all its calls, and no more are let in than it takes to open the breaker. */
  lemma {:induction false} OutageBudget(c: Settings, history: seq<Event>, runs: seq<Run>, since: int)
    requires c.retries >= 0 && IsOutage(c, runs, since)
    ensures var count, k := FailuresSinceSuccess(history), LetIn(c, history, runs);
            && |After(c, history, runs)| - |history| == k * (c.retries + 1)
            && k <= (if count < c.threshold then (c.threshold - count + c.retries) / (c.retries + 1) else 1)
  {
    OutageSteps(c, history, runs, since);
    hide LetIn, After, FailuresSinceSuccess, IsOutage;
    BudgetInFull(c, FailuresSinceSuccess(history), LetIn(c, history, runs));
  }

  lemma BudgetInFull(c: Settings, count: nat, k: nat)
    requires c.retries >= 0
    ensures Calls(k, c.retries + 1) == k * (c.retries + 1)
    ensures Rounds(c, count) == if count < c.threshold then (c.threshold - count + c.retries) / (c.retries + 1) else 1
  {
    RoundsAndCalls(k, if count < c.threshold then c.threshold - count else 0, c.retries + 1);
  }

  /** Requests that arrive together, `since`, and fail at once. */
  function Burst(c: Settings, since: int, n: nat): (runs: seq<Run>)
    requires c.retries >= 0
    ensures |runs| == n && forall i :: 0 <= i < n ==> runs[i] == Run(since, seq(c.retries + 1, _ => Failing(since)))
  {
    if n == 0 then [] else Burst(c, since, n - 1) + [Run(since, seq(c.retries + 1, _ => Failing(since)))]
  }

  lemma {:induction false} BurstIsOutage(c: Settings, since: int, n: nat)
    requires c.retries >= 0 && c.resetSeconds > 0
    ensures IsOutage(c, Burst(c, since, n), since)
  {
  }

  /** The budget is spent in full: of a burst of requests on a breaker that is not open, all are
      let in until it is, whatever the settings and the history. */
  lemma {:induction false} BudgetIsSpent(c: Settings, history: seq<Event>, since: int, n: nat)
    requires c.retries >= 0 && c.resetSeconds > 0 && !IsOpenAt(c, history, since)
    ensures IsOutage(c, Burst(c, since, n), since)
    ensures var rounds := Rounds(c, FailuresSinceSuccess(history));
            LetIn(c, history, Burst(c, since, n)) == if n <= rounds then n else rounds
  {
    BurstIsOutage(c, since, n);
    BurstLetIn(c, history, since, n);
  }

  lemma {:induction false} BurstLetIn(c: Settings, history: seq<Event>, since: int, n: nat)
    requires c.retries >= 0 && c.resetSeconds > 0 && !IsOpenAt(c, history, since)
    ensures var rounds := Rounds(c, FailuresSinceSuccess(history));
            LetIn(c, history, Burst(c, since, n)) == if n <= rounds then n else rounds
  {
    hide LetIn, Burst, Rounds, IsOpenAt;
    if n == 0 {
      NobodyLetIn(c, history, since);
    } else {
      BurstLetIn(c, history, since, n - 1);
      BurstStep(c, history, since, n);
    }
  }

  lemma {:induction false} NobodyLetIn(c: Settings, history: seq<Event>, since: int)
    requires c.retries >= 0
    ensures LetIn(c, history, Burst(c, since, 0)) == 0
  {
  }

  /** One request more: let in while the budget lasts. */
  lemma {:induction false} BurstStep(c: Settings, history: seq<Event>, since: int, n: nat)
    requires c.retries >= 0 && c.resetSeconds > 0 && !IsOpenAt(c, history, since) && n > 0
    ensures var rounds, k := Rounds(c, FailuresSinceSuccess(history)), LetIn(c, history, Burst(c, since, n - 1));
            && (k < rounds ==> LetIn(c, history, Burst(c, since, n)) == k + 1)
            && (k == rounds ==> LetIn(c, history, Burst(c, since, n)) == k)
  {
    var runs, earlier := Burst(c, since, n), Burst(c, since, n - 1);
    assert runs[..n - 1] == earlier && runs[n - 1].now == since;
    BurstIsOutage(c, since, n);
    OneMoreRequest(c, history, runs, since);
  }

  lemma {:induction false} OneMoreRequest(c: Settings, history: seq<Event>, runs: seq<Run>, since: int)
    requires c.retries >= 0 && runs != [] && IsOutage(c, runs, since) && !IsOpenAt(c, history, since)
    requires runs[|runs| - 1].now == since
    ensures var rounds, k := Rounds(c, FailuresSinceSuccess(history)), LetIn(c, history, runs[..|runs| - 1]);
            && (k < rounds ==> LetIn(c, history, runs) == k + 1)
            && (k == rounds ==> LetIn(c, history, runs) == k)
  {
    hide Rounds, IsOpenAt;
    var earlier := runs[..|runs| - 1];
    EarlierOutage(c, runs, since);
    OutageSteps(c, history, earlier, since);
    if LetIn(c, history, earlier) < Rounds(c, FailuresSinceSuccess(history)) {
      NotYetOpen(c, history, earlier, since);
    } else {
      LetInBounded(c, history, runs, since);
    }
  }

  lemma {:induction false} LetInBounded(c: Settings, history: seq<Event>, runs: seq<Run>, since: int)
    requires c.retries >= 0 && IsOutage(c, runs, since)
    ensures LetIn(c, history, runs) <= Rounds(c, FailuresSinceSuccess(history))
  {
    OutageSteps(c, history, runs, since);
  }

  lemma {:induction false} NotYetOpen(c: Settings, history: seq<Event>, runs: seq<Run>, since: int)
    requires c.retries >= 0 && IsOutage(c, runs, since) && OutageFacts(c, history, runs, since)
    requires LetIn(c, history, runs) < Rounds(c, FailuresSinceSuccess(history)) && !IsOpenAt(c, history, since)
    ensures !IsOpenAt(c, After(c, history, runs), since)
  {
    OneMoreRound(LetIn(c, history, runs), c.retries + 1, c.threshold - FailuresSinceSuccess(history));
  }

  /** With threshold 3 and 2 retries an outage costs 3 calls: one request opens the breaker. */
  lemma ThreeCallsOpenIt(since: int)
    ensures var c := Settings(3, 60, 2);
            |After(c, [], Burst(c, since, 5))| == 3 && LetIn(c, [], Burst(c, since, 5)) == 1
  {
    var c := Settings(3, 60, 2);
    BudgetIsSpent(c, [], since, 5);
    OutageBudget(c, [], Burst(c, since, 5), since);
    assert RoundsFor(3, 3) == 1 + RoundsFor(0, 3);
  }
}
