/** What an amendment does to the orders on the book: every cancellation, placement and
    compensation accounted for, whatever requests fail. */
module AmendAccounting {
  import opened Basics
  import opened ProtectionAmend

  // ------------------------------------------------------------ orders behind legs

  function Bag(order: Option<Order>): multiset<Order> {
    match order case None => multiset{} case Some(o) => multiset{o}
  }

  /** The orders a list of legs is (re)built as. */
  ghost function BuiltOrders(legs: Legs, build: Builder): multiset<Order> {
    if legs == [] then multiset{}
    else
      var last := legs[|legs| - 1];
      BuiltOrders(legs[..|legs| - 1], build) + Bag(build(last.0, last.1))
  }

  /** The orders that stood behind those legs in `book`. */
  ghost function OriginalOrders(legs: Legs, book: Book): multiset<Order> {
    if legs == [] then multiset{}
    else
      var id := legs[|legs| - 1].1.orderId;
      OriginalOrders(legs[..|legs| - 1], book) +
      (if id.Some? && IsLive(book, id.value) then multiset{book[id.value].value} else multiset{})
  }

  ghost predicate HasId(legs: Legs, id: nat) {
    exists i :: 0 <= i < |legs| && legs[i].1.orderId == Some(id)
  }

  /** `now` is `before` with exactly the slots of `legs` emptied. */
  ghost predicate Emptied(before: Book, now: Book, legs: Legs) {
    && |now| == |before|
    && forall id: nat :: id < |before| ==> now[id] == if HasId(legs, id) then None else before[id]
  }

  lemma BuiltOrdersSnoc(legs: Legs, leg: (LegName, Leg), build: Builder)
    ensures BuiltOrders(legs + [leg], build) == BuiltOrders(legs, build) + Bag(build(leg.0, leg.1))
  {
    assert (legs + [leg])[..|legs|] == legs;
  }

  lemma OriginalOrdersSnoc(legs: Legs, leg: (LegName, Leg), book: Book)
    requires leg.1.orderId.Some? && IsLive(book, leg.1.orderId.value)
    ensures OriginalOrders(legs + [leg], book)
            == OriginalOrders(legs, book) + multiset{book[leg.1.orderId.value].value}
  {
    assert (legs + [leg])[..|legs|] == legs;
  }

  lemma HasIdSnoc(legs: Legs, leg: (LegName, Leg), id: nat)
    ensures HasId(legs + [leg], id) <==> HasId(legs, id) || leg.1.orderId == Some(id)
  {
    var more := legs + [leg];
    if HasId(legs, id) {
      var i :| 0 <= i < |legs| && legs[i].1.orderId == Some(id);
      assert more[i] == legs[i];
    }
    assert more[|legs|] == leg;
  }

  /** The books `before` and `now` differ by the cancellation of `legs`, order for order. */
  ghost predicate CancelledFrom(before: Book, now: Book, legs: Legs) {
    && Emptied(before, now, legs)
    && LiveOrders(now) + OriginalOrders(legs, before) == LiveOrders(before)
    && |OriginalOrders(legs, before)| == |legs|
  }

  lemma CancelStep(before: Book, now: Book, legs: Legs, leg: (LegName, Leg), id: nat)
    requires CancelledFrom(before, now, legs)
    requires leg.1.orderId == Some(id) && IsLive(now, id)
    ensures CancelledFrom(before, now[id := None], legs + [leg])
  {
    CancelRemovesOne(now, id);
    OriginalOrdersSnoc(legs, leg, before);
    forall k: nat {
      HasIdSnoc(legs, leg, k);
    }
  }

  // ------------------------------------------------------------ what the first two passes do to the book

  /** `done` is what a pass over the legs of `p` got through: all of them when `ok`, and
      otherwise those before some position. */
  ghost predicate IsPass(done: Legs, p: Protection, ok: bool) {
    if ok then done == LegsUpTo(p, 2) else done == LegsUpTo(p, 0) || done == LegsUpTo(p, 1)
  }

  /** Legs whose ids are live and all different. */
  ghost predicate Cancellable(legs: Legs, book: Book) {
    && (forall i :: 0 <= i < |legs| ==> legs[i].1.orderId.Some? && IsLive(book, legs[i].1.orderId.value))
    && (forall i, j :: 0 <= i < j < |legs| ==> legs[i].1.orderId != legs[j].1.orderId)
  }

  lemma CancellableStep(before: Book, now: Book, legs: Legs, leg: (LegName, Leg), id: nat)
    requires Cancellable(legs, before) && Emptied(before, now, legs)
    requires leg.1.orderId == Some(id) && IsLive(now, id)
    ensures Cancellable(legs + [leg], before)
  {
    assert !HasId(legs, id);
  }

  /** The identified legs, one at a time. */
  lemma IdentifiedStep(active: Protection, n: nat)
    requires 0 < n <= 2
    ensures var name := LEG_ORDER[n - 1];
            var leg := active.Get(name);
            var before := LegsUpTo(Identified(active), n - 1);
            LegsUpTo(Identified(active), n)
            == if leg.None? || leg.value.orderId.None? then before else before + [(name, leg.value)]
    ensures IsPass(LegsUpTo(Identified(active), n - 1), Identified(active), false)
  {
    assert LegsUpTo(Identified(active), n - 1) + [] == LegsUpTo(Identified(active), n - 1);
  }

  /** The first pass so far: a prefix of the identified legs, and the book loses exactly them. */
  ghost predicate CancelAccounts(book: Book, r: CancelRun, active: Protection, n: nat)
    requires n <= 2
  {
    && CancelledFrom(book, r.book, r.cancelled) && Cancellable(r.cancelled, book)
    && (if r.ok then r.cancelled == LegsUpTo(Identified(active), n) else IsPass(r.cancelled, Identified(active), false))
  }

  lemma CancelNextAccounts(book: Book, before: CancelRun, active: Protection, n: nat, fates: nat -> Fate)
    requires 0 < n <= 2 && CancelAccounts(book, before, active, n - 1)
    ensures var name := LEG_ORDER[n - 1];
            CancelAccounts(book, CancelNext(before, name, active.Get(name), fates), active, n)
  {
    var name := LEG_ORDER[n - 1];
    var leg := active.Get(name);
    IdentifiedStep(active, n);
    if before.ok && leg.Some? && leg.value.orderId.Some? {
      var id := leg.value.orderId.value;
      if fates(before.sent).succeeds && IsLive(before.book, id) {
        CancelStep(book, before.book, before.cancelled, (name, leg.value), id);
        CancellableStep(book, before.book, before.cancelled, (name, leg.value), id);
      }
    }
  }

  lemma {:induction false} CancelPassAccounts(book: Book, sent: nat, active: Protection, fates: nat -> Fate, n: nat)
    requires n <= 2
    ensures CancelAccounts(book, CancelPass(book, sent, active, fates, n), active, n)
  {
    if n > 0 {
      CancelPassAccounts(book, sent, active, fates, n - 1);
      CancelNextAccounts(book, CancelPass(book, sent, active, fates, n - 1), active, n, fates);
    }
  }

  lemma LegsOfSnoc(created: seq<Placed>, p: Placed)
    ensures LegsOf(created + [p]) == LegsOf(created) + [(p.name, p.leg)]
  {
    assert (created + [p])[..|created|] == created;
  }

  /** Every one of these legs can be built into an order. */
  ghost predicate AllBuilt(legs: Legs, build: Builder) {
    forall i :: 0 <= i < |legs| ==> build(legs[i].0, legs[i].1).Some?
  }

  lemma BuiltOneMore(legs: Legs, leg: (LegName, Leg), build: Builder)
    ensures AllBuilt(legs + [leg], build) <==> AllBuilt(legs, build) && build(leg.0, leg.1).Some?
  {
    var more := legs + [leg];
    assert more[|legs|] == leg;
    if AllBuilt(more, build) {
      forall i | 0 <= i < |legs| ensures build(legs[i].0, legs[i].1).Some? {
        assert more[i] == legs[i];
      }
    }
  }

  lemma {:induction false} BuiltCount(legs: Legs, build: Builder)
    requires AllBuilt(legs, build)
    ensures |BuiltOrders(legs, build)| == |legs|
  {
    if legs != [] {
      BuiltCount(legs[..|legs| - 1], build);
    }
  }

  lemma PlaceAccounts(start: multiset<Order>, now: Book, legs: Legs, leg: (LegName, Leg), order: Order, build: Builder)
    requires LiveOrders(now) == start + BuiltOrders(legs, build)
    requires build(leg.0, leg.1) == Some(order)
    ensures LiveOrders(now + [Some(order)]) == start + BuiltOrders(legs + [leg], build)
  {
    PlaceAddsOne(now, order);
    BuiltOrdersSnoc(legs, leg, build);
  }

  /** Slots that existed before are as they were. */
  ghost predicate Extends(before: Book, now: Book) {
    |before| <= |now| && forall id :: 0 <= id < |before| ==> now[id] == before[id]
  }

  /** Each placed order sits in the next slot after `before`, as its leg builds it. */
  ghost predicate PlacedAfter(before: Book, now: Book, created: seq<Placed>, build: Builder) {
    && |now| == |before| + |created|
    && Extends(before, now)
    && LiveOrders(now) == LiveOrders(before) + BuiltOrders(LegsOf(created), build)
    && InSlots(|before|, now, created, build)
    && AllBuilt(LegsOf(created), build)
  }

  ghost predicate InSlots(start: nat, now: Book, created: seq<Placed>, build: Builder) {
    forall i :: 0 <= i < |created| ==> IsPlacedAt(created[i], now, start + i, build)
  }

  ghost predicate IsPlacedAt(p: Placed, book: Book, id: nat, build: Builder) {
    && IsLive(book, id) && book[id] == build(p.name, p.leg)
    && (p.id == None || p.id == Some(id))
  }

  lemma SlotsStep(start: nat, now: Book, created: seq<Placed>, p: Placed, order: Order, build: Builder)
    requires InSlots(start, now, created, build) && |now| == start + |created|
    requires build(p.name, p.leg) == Some(order) && p.id in {None, Some(|now|)}
    ensures InSlots(start, now + [Some(order)], created + [p], build)
  {
    var after, more := now + [Some(order)], created + [p];
    forall i | 0 <= i < |more| ensures IsPlacedAt(more[i], after, start + i, build) {
      if i < |created| {
        assert IsPlacedAt(created[i], now, start + i, build) && more[i] == created[i];
      } else {
        assert after[start + i] == Some(order) && more[i] == p;
      }
    }
  }

  lemma PlaceStep(before: Book, now: Book, created: seq<Placed>, p: Placed, order: Order, build: Builder)
    requires PlacedAfter(before, now, created, build)
    requires build(p.name, p.leg) == Some(order) && p.id in {None, Some(|now|)}
    ensures PlacedAfter(before, now + [Some(order)], created + [p], build)
  {
    LegsOfSnoc(created, p);
    PlaceAccounts(LiveOrders(before), now, LegsOf(created), (p.name, p.leg), order, build);
    SlotsStep(|before|, now, created, p, order, build);
  }

  function ProtectionUpTo(p: Protection, n: nat): Protection {
    Protection(if n >= 1 then p.stopLoss else None, if n >= 2 then p.takeProfit else None)
  }

  /** The requested legs, one at a time. */
  lemma RequestedStep(requested: Protection, n: nat)
    requires 0 < n <= 2
    ensures var name := LEG_ORDER[n - 1];
            var leg := requested.Get(name);
            var before := LegsUpTo(requested, n - 1);
            && LegsUpTo(requested, n) == (if leg.None? then before else before + [(name, leg.value)])
            && ProtectionUpTo(requested, n)
               == (if leg.None? then ProtectionUpTo(requested, n - 1)
                   else WithLeg(ProtectionUpTo(requested, n - 1), name, leg.value))
    ensures IsPass(LegsUpTo(requested, n - 1), requested, false)
  {
    assert LegsUpTo(requested, n - 1) + [] == LegsUpTo(requested, n - 1);
  }

  /** The second pass so far: a prefix of the requested legs, each in a slot of its own. */
  ghost predicate PlaceAccountsFor(book: Book, r: PlaceRun, requested: Protection, build: Builder, n: nat)
    requires n <= 2
  {
    && PlacedAfter(book, r.book, r.created, build)
    && (if r.ok then LegsOf(r.created) == LegsUpTo(requested, n) && r.accepted == ProtectionUpTo(requested, n)
        else IsPass(LegsOf(r.created), requested, false))
  }

  lemma PlaceNextAccounts(book: Book, before: PlaceRun, requested: Protection, build: Builder, n: nat,
                          fates: nat -> Fate)
    requires 0 < n <= 2 && PlaceAccountsFor(book, before, requested, build, n - 1)
    ensures var name := LEG_ORDER[n - 1];
            PlaceAccountsFor(book, PlaceNext(before, name, requested.Get(name), build, fates), requested, build, n)
  {
    var name := LEG_ORDER[n - 1];
    var leg := requested.Get(name);
    RequestedStep(requested, n);
    if before.ok && leg.Some? && build(name, leg.value).Some? && fates(before.sent).succeeds {
      var id := if fates(before.sent).echoed then Some(|before.book|) else None;
      var p := Placed(name, leg.value, id);
      LegsOfSnoc(before.created, p);
      PlaceStep(book, before.book, before.created, p, build(name, leg.value).value, build);
    }
  }

  lemma {:induction false} PlacePassAccounts(book: Book, sent: nat, requested: Protection, build: Builder,
                                             fates: nat -> Fate, n: nat)
    requires n <= 2
    ensures PlaceAccountsFor(book, PlacePass(book, sent, requested, build, fates, n), requested, build, n)
  {
    if n > 0 {
      PlacePassAccounts(book, sent, requested, build, fates, n - 1);
      PlaceNextAccounts(book, PlacePass(book, sent, requested, build, fates, n - 1), requested, build, n, fates);
    }
  }

  // ------------------------------------------------------------ what compensation does to the book

  /** `all` is `done` and `failed`, interleaved. */
  predicate Splits(all: Legs, done: Legs, failed: Legs)
    decreases |all|
  {
    if all == [] then done == [] && failed == []
    else
      var init, last := all[..|all| - 1], all[|all| - 1];
      || (done != [] && done[|done| - 1] == last && Splits(init, done[..|done| - 1], failed))
      || (failed != [] && failed[|failed| - 1] == last && Splits(init, done, failed[..|failed| - 1]))
  }

  lemma SplitsStep(all: Legs, done: Legs, failed: Legs, leg: (LegName, Leg))
    requires Splits(all, done, failed)
    ensures Splits(all + [leg], done + [leg], failed) && Splits(all + [leg], done, failed + [leg])
  {
    assert (all + [leg])[..|all|] == all;
    assert (done + [leg])[..|done|] == done;
    assert (failed + [leg])[..|failed|] == failed;
  }

  /** Sizes and orders of the two parts add up to the whole's. */
  lemma {:induction false} SplitsAddUp(all: Legs, done: Legs, failed: Legs, build: Builder)
    requires Splits(all, done, failed)
    ensures |all| == |done| + |failed|
    ensures BuiltOrders(all, build) == BuiltOrders(done, build) + BuiltOrders(failed, build)
    decreases |all|
  {
    if all != [] {
      var init, last := all[..|all| - 1], all[|all| - 1];
      if done != [] && done[|done| - 1] == last && Splits(init, done[..|done| - 1], failed) {
        SplitsAddUp(init, done[..|done| - 1], failed, build);
      } else {
        SplitsAddUp(init, done, failed[..|failed| - 1], build);
      }
    }
  }

  lemma {:induction false} NothingFailed(all: Legs, done: Legs, failed: Legs)
    requires Splits(all, done, failed) && failed == []
    ensures done == all
    decreases |all|
  {
    if all != [] {
      var init, last := all[..|all| - 1], all[|all| - 1];
      NothingFailed(init, done[..|done| - 1], failed);
      assert all == init + [last] && done == done[..|done| - 1] + [last];
    }
  }

  lemma PartsAreBuilt(all: Legs, done: Legs, failed: Legs, build: Builder)
    requires Splits(all, done, failed) && AllBuilt(all, build)
    ensures AllBuilt(done, build) && AllBuilt(failed, build)
  {
    SplitsMembers(all, done, failed);
    forall leg | leg in all ensures build(leg.0, leg.1).Some? {
      var i :| 0 <= i < |all| && all[i] == leg;
    }
    forall i | 0 <= i < |done| ensures build(done[i].0, done[i].1).Some? {
      assert done[i] in all;
    }
    forall i | 0 <= i < |failed| ensures build(failed[i].0, failed[i].1).Some? {
      assert failed[i] in all;
    }
  }

  /** The legs of `all` that are not in `part`. */
  function Remaining(all: Legs, part: Legs): Legs {
    if all == [] then []
    else
      var before, last := Remaining(all[..|all| - 1], part), all[|all| - 1];
      if last in part then before else before + [last]
  }

  predicate NamesDiffer(legs: Legs) {
    forall i, j :: 0 <= i < j < |legs| ==> legs[i].0 != legs[j].0
  }

  lemma {:induction false} RemainingIgnores(all: Legs, part: Legs, leg: (LegName, Leg))
    requires leg !in all
    ensures Remaining(all, part + [leg]) == Remaining(all, part)
  {
    if all != [] {
      RemainingIgnores(all[..|all| - 1], part, leg);
      assert all[|all| - 1] in all;
    }
  }

  lemma {:induction false} SplitsMembers(all: Legs, done: Legs, failed: Legs)
    requires Splits(all, done, failed)
    ensures forall leg :: leg in done || leg in failed ==> leg in all
    decreases |all|
  {
    if all != [] {
      var init, last := all[..|all| - 1], all[|all| - 1];
      assert all == init + [last];
      if done != [] && done[|done| - 1] == last && Splits(init, done[..|done| - 1], failed) {
        SplitsMembers(init, done[..|done| - 1], failed);
        assert done == done[..|done| - 1] + [last];
      } else {
        SplitsMembers(init, done, failed[..|failed| - 1]);
        assert failed == failed[..|failed| - 1] + [last];
      }
    }
  }

  /** With one leg per name, what failed is what was not done. */
  lemma {:induction false} FailedIsRemaining(all: Legs, done: Legs, failed: Legs)
    requires Splits(all, done, failed) && NamesDiffer(all)
    ensures failed == Remaining(all, done)
    decreases |all|
  {
    if all != [] {
      var init, last := all[..|all| - 1], all[|all| - 1];
      assert last !in init;
      if done != [] && done[|done| - 1] == last && Splits(init, done[..|done| - 1], failed) {
        var rest := done[..|done| - 1];
        FailedIsRemaining(init, rest, failed);
        assert done == rest + [last];
        RemainingIgnores(init, rest, last);
      } else {
        var rest := failed[..|failed| - 1];
        FailedIsRemaining(init, done, rest);
        SplitsMembers(init, done, rest);
        assert failed == rest + [last];
      }
    }
  }

  /** Every named order of `created` from position `from` on is live, as its leg builds it,
      and no two of them share an id. */
  ghost predicate NamedOrdersLive(created: seq<Placed>, from: nat, book: Book, build: Builder) {
    forall i :: from <= i < |created| && created[i].id.Some? ==>
      && IsPlacedAt(created[i], book, created[i].id.value, build)
      && forall j :: i < j < |created| ==> created[j].id != created[i].id
  }

  ghost predicate Names(created: seq<Placed>, id: nat) {
    exists i :: 0 <= i < |created| && created[i].id == Some(id)
  }

  /** Slots of orders not among `created` are as they were. */
  ghost predicate OthersKept(before: Book, now: Book, created: seq<Placed>) {
    && |now| == |before|
    && forall id: nat :: id < |now| && !Names(created, id) ==> now[id] == before[id]
  }

  lemma UndoStep(now: Book, created: seq<Placed>, i: nat, undone: seq<Placed>, build: Builder)
    requires i < |created| && created[i].id.Some?
    requires NamedOrdersLive(created, i, now, build)
    ensures var after := now[created[i].id.value := None];
            && LiveOrders(now) + BuiltOrders(LegsOf(undone), build)
               == LiveOrders(after) + BuiltOrders(LegsOf(undone + [created[i]]), build)
            && NamedOrdersLive(created, i + 1, after, build)
            && OthersKept(now, after, created)
  {
    var id := created[i].id.value;
    assert IsPlacedAt(created[i], now, id, build);
    CancelRemovesOne(now, id);
    LegsOfSnoc(undone, created[i]);
    BuiltOrdersSnoc(LegsOf(undone), (created[i].name, created[i].leg), build);
    forall j | i + 1 <= j < |created| && created[j].id.Some?
      ensures IsPlacedAt(created[j], now[id := None], created[j].id.value, build)
    {
      assert IsPlacedAt(created[j], now, created[j].id.value, build);
    }
    assert Names(created, id);
  }

  lemma StillKept(before: Book, middle: Book, now: Book, created: seq<Placed>)
    requires OthersKept(before, middle, created) && OthersKept(middle, now, created)
    ensures OthersKept(before, now, created)
  {
  }

  lemma Unaddressed(created: seq<Placed>, i: nat, book: Book, build: Builder)
    requires NamedOrdersLive(created, i, book, build)
    ensures NamedOrdersLive(created, i + 1, book, build)
  {
  }

  /** Undoing: each replacement is off the book or stuck, and nothing else is touched. */
  ghost predicate UndoAccounts(book: Book, r: UndoRun, created: seq<Placed>, n: nat, build: Builder)
    requires n <= |created|
  {
    && LiveOrders(book) == LiveOrders(r.book) + BuiltOrders(LegsOf(r.undone), build)
    && Splits(LegsOf(created[..n]), LegsOf(r.undone), LegsOf(r.stuck))
    && NamedOrdersLive(created, n, r.book, build)
    && OthersKept(book, r.book, created)
  }

  lemma UndoNextAccounts(book: Book, before: UndoRun, created: seq<Placed>, i: nat, build: Builder, fates: nat -> Fate)
    requires i < |created| && UndoAccounts(book, before, created, i, build)
    ensures UndoAccounts(book, UndoNext(before, created[i], fates), created, i + 1, build)
  {
    var p := created[i];
    var after := UndoNext(before, p, fates);
    assert created[..i + 1] == created[..i] + [p];
    LegsOfSnoc(created[..i], p);
    LegsOfSnoc(before.undone, p);
    LegsOfSnoc(before.stuck, p);
    SplitsStep(LegsOf(created[..i]), LegsOf(before.undone), LegsOf(before.stuck), (p.name, p.leg));
    Unaddressed(created, i, before.book, build);
    if p.id.Some? && fates(before.sent).succeeds && IsLive(before.book, p.id.value) {
      UndoStep(before.book, created, i, before.undone, build);
      StillKept(book, before.book, after.book, created);
    }
  }

  lemma {:induction false} UndoPassAccounts(book: Book, sent: nat, created: seq<Placed>, build: Builder,
                                            fates: nat -> Fate, n: nat)
    requires n <= |created| && NamedOrdersLive(created, 0, book, build)
    ensures UndoAccounts(book, UndoPass(book, sent, created, fates, n), created, n, build)
  {
    if n > 0 {
      UndoPassAccounts(book, sent, created, build, fates, n - 1);
      UndoNextAccounts(book, UndoPass(book, sent, created, fates, n - 1), created, n - 1, build, fates);
    } else {
      assert created[..0] == [];
    }
  }

  /** Recreating: each recreated leg is back on the book as its record builds it. */
  ghost predicate RecreateAccounts(book: Book, r: RecreateRun, build: Builder) {
    && LiveOrders(r.book) == LiveOrders(book) + BuiltOrders(r.recreated, build)
    && AllBuilt(r.recreated, build)
    && Extends(book, r.book)
  }

  lemma RecreateNextAccounts(book: Book, before: RecreateRun, leg: (LegName, Leg), build: Builder, fates: nat -> Fate)
    requires RecreateAccounts(book, before, build)
    ensures RecreateAccounts(book, RecreateNext(before, leg, build, fates), build)
  {
    if build(leg.0, leg.1).Some? && fates(before.sent).succeeds {
      var order := build(leg.0, leg.1).value;
      PlaceAccounts(LiveOrders(book), before.book, before.recreated, leg, order, build);
      BuiltOneMore(before.recreated, leg, build);
      OneSlotMore(book, before.book, order);
    }
  }

  lemma OneSlotMore(before: Book, now: Book, order: Order)
    requires Extends(before, now)
    ensures Extends(before, now + [Some(order)])
  {
  }

  lemma {:induction false} RecreatePassAccounts(book: Book, sent: nat, cancelled: Legs, build: Builder,
                                                fates: nat -> Fate, n: nat)
    requires n <= |cancelled|
    ensures RecreateAccounts(book, RecreatePass(book, sent, cancelled, build, fates, n), build)
  {
    if n == 0 {
      assert BuiltOrders([], build) == multiset{};
    } else {
      RecreatePassAccounts(book, sent, cancelled, build, fates, n - 1);
      RecreateNextAccounts(book, RecreatePass(book, sent, cancelled, build, fates, n - 1), cancelled[n - 1], build, fates);
    }
  }

  /** And each cancelled leg is recreated or lost. */
  lemma {:induction false} RecreatePassSplits(book: Book, sent: nat, cancelled: Legs, build: Builder,
                                              fates: nat -> Fate, n: nat)
    requires n <= |cancelled|
    ensures var r := RecreatePass(book, sent, cancelled, build, fates, n);
            Splits(cancelled[..n], r.recreated, r.lost)
  {
    if n > 0 {
      RecreatePassSplits(book, sent, cancelled, build, fates, n - 1);
      var before := RecreatePass(book, sent, cancelled, build, fates, n - 1);
      assert cancelled[..n] == cancelled[..n - 1] + [cancelled[n - 1]];
      SplitsStep(cancelled[..n - 1], before.recreated, before.lost, cancelled[n - 1]);
    }
  }

  // ------------------------------------------------------------ accounting

  /** The slots of `before` afterwards: emptied for the cancelled legs, untouched otherwise. */
  ghost predicate OldSlots(before: Book, after: Book, cancelled: Legs) {
    && |before| <= |after|
    && forall id: nat :: id < |before| ==> after[id] == if HasId(cancelled, id) then None else before[id]
  }

  /** Replacements that stayed on the book. */
  function Stuck(o: Outcome): Legs
    requires o.RolledBack?
  {
    Remaining(o.created, o.undone)
  }

  /** Cancelled legs that were not placed again. */
  function Lost(o: Outcome): Legs
    requires o.RolledBack?
  {
    Remaining(o.cancelled, o.recreated)
  }

  /** The legs of a failed amendment: which were undone, which recreated, and that the errors
      are exactly one for each stuck replacement and one naming each lost leg, in order. */
  ghost predicate LegsAccountFor(o: Outcome, build: Builder)
    requires o.RolledBack?
  {
    && Splits(o.created, o.undone, Stuck(o)) && Splits(o.cancelled, o.recreated, Lost(o))
    && AllBuilt(o.created, build) && AllBuilt(o.recreated, build)
    && o.errors == UndoErrors(|Stuck(o)|) + LostErrors(Lost(o))
    && (o.restored <==> o.errors == [])
  }

  /** The orders of a failed amendment: those of before, less the ones cancelled, plus one for
      each stuck replacement and one for each recreated leg. */
  ghost predicate OrdersAccountFor(o: Outcome, before: Book, after: Book, build: Builder)
    requires o.RolledBack?
  {
    && |OriginalOrders(o.cancelled, before)| == |o.cancelled|
    && |BuiltOrders(Stuck(o), build)| == |Stuck(o)| && |BuiltOrders(o.recreated, build)| == |o.recreated|
    && LiveOrders(after) + OriginalOrders(o.cancelled, before)
       == LiveOrders(before) + BuiltOrders(Stuck(o), build) + BuiltOrders(o.recreated, build)
    && OldSlots(before, after, o.cancelled)
  }

  ghost predicate RollbackAccounts(o: Outcome, before: Book, after: Book, active: Protection, requested: Protection,
                                   build: Builder)
    requires o.RolledBack?
  {
    && (|| (IsPass(o.cancelled, Identified(active), false) && o.created == [])
        || (IsPass(o.cancelled, Identified(active), true) && IsPass(o.created, requested, false)))
    && Cancellable(o.cancelled, before)
    && LegsAccountFor(o, build)
    && OrdersAccountFor(o, before, after, build)
  }

  ghost predicate ReplaceAccounts(o: Outcome, before: Book, after: Book, active: Protection, requested: Protection,
                                  build: Builder)
    requires o.Replaced?
  {
    && o.cancelled == LegsUpTo(Identified(active), 2) && Cancellable(o.cancelled, before)
    && o.created == LegsUpTo(requested, 2) && AllBuilt(o.created, build)
    && |OriginalOrders(o.cancelled, before)| == |o.cancelled| && |BuiltOrders(o.created, build)| == |o.created|
    && LiveOrders(after) + OriginalOrders(o.cancelled, before) == LiveOrders(before) + BuiltOrders(o.created, build)
    && OldSlots(before, after, o.cancelled)
    && o.status == (if requested.stopLoss.None? && requested.takeProfit.None? then NotRequested else Armed)
    && o.missing == []
  }

  lemma PlacedAreNamed(before: Book, now: Book, created: seq<Placed>, build: Builder)
    requires PlacedAfter(before, now, created, build)
    ensures NamedOrdersLive(created, 0, now, build)
    ensures forall id: nat :: Names(created, id) ==> id >= |before|
  {
    forall i | 0 <= i < |created| && created[i].id.Some?
      ensures created[i].id.value == |before| + i
      ensures IsPlacedAt(created[i], now, created[i].id.value, build)
    {
      assert IsPlacedAt(created[i], now, |before| + i, build);
    }
    forall i, j | 0 <= i < j < |created| && created[i].id.Some?
      ensures created[j].id != created[i].id
    {
      assert IsPlacedAt(created[i], now, |before| + i, build);
      assert IsPlacedAt(created[j], now, |before| + j, build);
    }
  }

  lemma Balance(before: multiset<Order>, middle: multiset<Order>, placed: multiset<Order>, undoneBook: multiset<Order>,
                after: multiset<Order>, originals: multiset<Order>, created: multiset<Order>, undone: multiset<Order>,
                stuck: multiset<Order>, recreated: multiset<Order>)
    requires middle + originals == before
    requires placed == middle + created
    requires placed == undoneBook + undone
    requires created == undone + stuck
    requires after == undoneBook + recreated
    ensures after + originals == before + stuck + recreated
  {
    assert undoneBook + undone == middle + stuck + undone;
    forall x ensures undoneBook[x] == middle[x] + stuck[x] {
      assert (undoneBook + undone)[x] == (middle + stuck + undone)[x];
    }
    assert undoneBook == middle + stuck;
  }

  lemma NoErrors(n: nat, lost: Legs)
    ensures UndoErrors(n) + LostErrors(lost) == [] <==> n == 0 && lost == []
    ensures |UndoErrors(n)| == n && |LostErrors(lost)| == |lost|
  {
    UndoErrorsCount(n);
    LostErrorsCount(lost);
  }

  lemma {:induction false} UndoErrorsCount(n: nat)
    ensures |UndoErrors(n)| == n && forall i :: 0 <= i < n ==> UndoErrors(n)[i] == CancelReplacement
  {
    if n > 0 {
      UndoErrorsCount(n - 1);
    }
  }

  lemma {:induction false} LostErrorsCount(lost: Legs)
    ensures |LostErrors(lost)| == |lost|
    ensures forall i :: 0 <= i < |lost| ==> LostErrors(lost)[i] == RecreateOriginal(lost[i].0)
  {
    if lost != [] {
      LostErrorsCount(lost[..|lost| - 1]);
    }
  }

  /** The four books a failed amendment passes through, chained. */
  lemma RollbackBalance(before: Book, middle: Book, placed: Book, u: UndoRun, r: RecreateRun, cancelled: Legs,
                        created: seq<Placed>, build: Builder)
    requires CancelledFrom(before, middle, cancelled) && PlacedAfter(middle, placed, created, build)
    requires UndoAccounts(placed, u, created, |created|, build)
    requires RecreateAccounts(u.book, r, build)
    ensures LiveOrders(r.book) + OriginalOrders(cancelled, before)
            == LiveOrders(before) + BuiltOrders(LegsOf(u.stuck), build) + BuiltOrders(r.recreated, build)
    ensures OldSlots(before, r.book, cancelled)
  {
    PlacedAreNamed(middle, placed, created, build);
    assert created[..|created|] == created;
    SplitsAddUp(LegsOf(created), LegsOf(u.undone), LegsOf(u.stuck), build);
    Balance(LiveOrders(before), LiveOrders(middle), LiveOrders(placed), LiveOrders(u.book), LiveOrders(r.book),
            OriginalOrders(cancelled, before), BuiltOrders(LegsOf(created), build), BuiltOrders(LegsOf(u.undone), build),
            BuiltOrders(LegsOf(u.stuck), build), BuiltOrders(r.recreated, build));
  }

  /** What the two compensating passes leave is what `Stuck` and `Lost` read off the outcome. */
  lemma RollbackLegs(o: Outcome, u: UndoRun, r: RecreateRun, created: seq<Placed>, build: Builder)
    requires o.RolledBack? && o.created == LegsOf(created)
    requires o.undone == LegsOf(u.undone) && o.recreated == r.recreated
    requires o.errors == UndoErrors(|u.stuck|) + LostErrors(r.lost) && o.restored == (o.errors == [])
    requires Splits(o.created, o.undone, LegsOf(u.stuck)) && Splits(o.cancelled, o.recreated, r.lost)
    requires AllBuilt(o.created, build) && AllBuilt(o.recreated, build)
    requires NamesDiffer(o.created) && NamesDiffer(o.cancelled)
    ensures LegsAccountFor(o, build) && Stuck(o) == LegsOf(u.stuck)
    ensures |BuiltOrders(Stuck(o), build)| == |Stuck(o)| && |BuiltOrders(o.recreated, build)| == |o.recreated|
  {
    FailedIsRemaining(o.created, o.undone, LegsOf(u.stuck));
    FailedIsRemaining(o.cancelled, o.recreated, r.lost);
    PartsAreBuilt(o.created, o.undone, LegsOf(u.stuck), build);
    BuiltCount(LegsOf(u.stuck), build);
    BuiltCount(o.recreated, build);
  }

  /** The rollback of a half-done amendment, from the book before it began. */
  lemma RollbackRunAccounts(before: Book, middle: Book, placed: Book, sent: nat, cancelled: Legs, created: seq<Placed>,
                            build: Builder, fates: nat -> Fate)
    requires CancelledFrom(before, middle, cancelled) && PlacedAfter(middle, placed, created, build)
    requires NamesDiffer(cancelled) && NamesDiffer(LegsOf(created))
    ensures var (o, after) := RollbackRun(cancelled, created, placed, sent, build, fates);
            && o.RolledBack? && o.cancelled == cancelled && o.created == LegsOf(created)
            && LegsAccountFor(o, build) && OrdersAccountFor(o, before, after, build)
  {
    PlacedAreNamed(middle, placed, created, build);
    var u := UndoPass(placed, sent, created, fates, |created|);
    UndoPassAccounts(placed, sent, created, build, fates, |created|);
    var r := RecreatePass(u.book, u.sent, cancelled, build, fates, |cancelled|);
    RecreatePassAccounts(u.book, u.sent, cancelled, build, fates, |cancelled|);
    RecreatePassSplits(u.book, u.sent, cancelled, build, fates, |cancelled|);
    assert created[..|created|] == created && cancelled[..|cancelled|] == cancelled;
    RollbackBalance(before, middle, placed, u, r, cancelled, created, build);
    var (o, after) := RollbackRun(cancelled, created, placed, sent, build, fates);
    RollbackLegs(o, u, r, created, build);
  }

  lemma PassNamesDiffer(legs: Legs, p: Protection, ok: bool)
    requires IsPass(legs, p, ok)
    ensures NamesDiffer(legs)
  {
    var stop := if p.stopLoss.Some? then [(StopLoss, p.stopLoss.value)] else [];
    var target := if p.takeProfit.Some? then [(TakeProfit, p.takeProfit.value)] else [];
    assert LegsUpTo(p, 0) == [] && LegsUpTo(p, 1) == stop && LegsUpTo(p, 2) == stop + target;
  }

  lemma StatusWhenAllAccepted(requested: Protection)
    ensures ProtectionUpTo(requested, 2) == requested
    ensures ProtectionState(requested, requested)
            == if requested.stopLoss.None? && requested.takeProfit.None? then NotRequested else Armed
    ensures MissingLegs(requested, requested) == []
  {
  }

  lemma OrdersReplaced(before: Book, middle: Book, after: Book, cancelled: Legs, created: seq<Placed>, build: Builder)
    requires CancelledFrom(before, middle, cancelled) && PlacedAfter(middle, after, created, build)
    ensures |OriginalOrders(cancelled, before)| == |cancelled| && |BuiltOrders(LegsOf(created), build)| == |created|
    ensures LiveOrders(after) + OriginalOrders(cancelled, before)
            == LiveOrders(before) + BuiltOrders(LegsOf(created), build)
    ensures OldSlots(before, after, cancelled)
  {
    BuiltCount(LegsOf(created), build);
    assert LiveOrders(after) + OriginalOrders(cancelled, before)
           == (LiveOrders(middle) + OriginalOrders(cancelled, before)) + BuiltOrders(LegsOf(created), build);
  }

  lemma ReplaceAccountsFor(before: Book, c: CancelRun, p: PlaceRun, active: Protection, requested: Protection,
                           build: Builder)
    requires c.ok && CancelAccounts(before, c, active, 2)
    requires p.ok && PlaceAccountsFor(c.book, p, requested, build, 2)
    ensures ReplaceAccounts(Replaced(c.cancelled, LegsOf(p.created), ProtectionState(requested, p.accepted),
                                     MissingLegs(requested, p.accepted)), before, p.book, active, requested, build)
  {
    OrdersReplaced(before, c.book, p.book, c.cancelled, p.created, build);
    StatusWhenAllAccepted(requested);
  }

  /** The saga: for every way the requests can fare, the outcome accounts for every order. */
  lemma AmendRunAccounts(before: Book, sent: nat, active: Protection, requested: Protection, build: Builder,
                         fates: nat -> Fate)
    ensures var (o, after) := AmendRun(before, sent, active, requested, build, fates);
            && (o.Replaced? ==> ReplaceAccounts(o, before, after, active, requested, build))
            && (o.RolledBack? ==> RollbackAccounts(o, before, after, active, requested, build))
  {
    var c := CancelPass(before, sent, active, fates, 2);
    CancelPassAccounts(before, sent, active, fates, 2);
    PassNamesDiffer(c.cancelled, Identified(active), c.ok);
    if !c.ok {
      assert PlacedAfter(c.book, c.book, [], build);
      RollbackRunAccounts(before, c.book, c.book, c.sent, c.cancelled, [], build, fates);
    } else {
      var p := PlacePass(c.book, c.sent, requested, build, fates, 2);
      PlacePassAccounts(c.book, c.sent, requested, build, fates, 2);
      PassNamesDiffer(LegsOf(p.created), requested, p.ok);
      if p.ok {
        ReplaceAccountsFor(before, c, p, active, requested, build);
      } else {
        RollbackRunAccounts(before, c.book, p.book, p.sent, c.cancelled, p.created, build, fates);
      }
    }
  }

  /** Each leg's record rebuilds the very order its id stands for. */
  ghost predicate Faithful(legs: Legs, book: Book, build: Builder) {
    forall i :: 0 <= i < |legs| ==>
      var id := legs[i].1.orderId;
      id.Some? && IsLive(book, id.value) && book[id.value] == build(legs[i].0, legs[i].1)
  }

  lemma {:induction false} FaithfulRebuildsOriginals(legs: Legs, book: Book, build: Builder)
    requires Faithful(legs, book, build)
    ensures OriginalOrders(legs, book) == BuiltOrders(legs, build)
  {
    if legs != [] {
      FaithfulRebuildsOriginals(legs[..|legs| - 1], book, build);
    }
  }

  /** What can be checked beforehand: every identified leg with a live order would be rebuilt as
      that very order. */
  ghost predicate LiveRecordsFaithful(active: Protection, book: Book, build: Builder) {
    var legs := LegsUpTo(Identified(active), 2);
    forall i :: 0 <= i < |legs| && legs[i].1.orderId.Some? && IsLive(book, legs[i].1.orderId.value) ==>
      book[legs[i].1.orderId.value] == build(legs[i].0, legs[i].1)
  }

  lemma CancelledAreFaithful(cancelled: Legs, active: Protection, book: Book, build: Builder, ok: bool)
    requires IsPass(cancelled, Identified(active), ok) && Cancellable(cancelled, book)
    requires LiveRecordsFaithful(active, book, build)
    ensures Faithful(cancelled, book, build)
  {
    IdentifiedStep(active, 1);
    IdentifiedStep(active, 2);
    var legs := LegsUpTo(Identified(active), 2);
    assert LegsUpTo(Identified(active), 0) == [];
    forall i | 0 <= i < |cancelled|
      ensures book[cancelled[i].1.orderId.value] == build(cancelled[i].0, cancelled[i].1)
    {
      assert legs[i] == cancelled[i];
    }
  }

  /** With faithful records the errors are the whole difference: after a rollback the book lacks
      the orders of the legs they name, and has one extra order for each replacement they count. */
  lemma ErrorsAreTheDifference(before: Book, sent: nat, active: Protection, requested: Protection, build: Builder,
                               fates: nat -> Fate)
    requires LiveRecordsFaithful(active, before, build)
    ensures var (o, after) := AmendRun(before, sent, active, requested, build, fates);
            o.RolledBack? ==>
              && LiveOrders(after) + BuiltOrders(Lost(o), build) == LiveOrders(before) + BuiltOrders(Stuck(o), build)
              && |BuiltOrders(Lost(o), build)| == |Lost(o)| && |BuiltOrders(Stuck(o), build)| == |Stuck(o)|
              && o.errors == UndoErrors(|Stuck(o)|) + LostErrors(Lost(o))
  {
    var (o, after) := AmendRun(before, sent, active, requested, build, fates);
    AmendRunAccounts(before, sent, active, requested, build, fates);
    if o.RolledBack? {
      CancelledAreFaithful(o.cancelled, active, before, build, IsPass(o.cancelled, Identified(active), true));
      DifferenceFromAccounts(o, before, after, build);
    }
  }

  lemma DifferenceFromAccounts(o: Outcome, before: Book, after: Book, build: Builder)
    requires o.RolledBack? && LegsAccountFor(o, build) && OrdersAccountFor(o, before, after, build)
    requires Faithful(o.cancelled, before, build)
    ensures LiveOrders(after) + BuiltOrders(Lost(o), build) == LiveOrders(before) + BuiltOrders(Stuck(o), build)
    ensures |BuiltOrders(Lost(o), build)| == |Lost(o)|
  {
    FaithfulRebuildsOriginals(o.cancelled, before, build);
    SplitsAddUp(o.cancelled, o.recreated, Lost(o), build);
    FaithfulAreBuilt(o.cancelled, before, build);
    PartsAreBuilt(o.cancelled, o.recreated, Lost(o), build);
    BuiltCount(Lost(o), build);
    TakeAway(LiveOrders(after), LiveOrders(before), BuiltOrders(Lost(o), build), BuiltOrders(Stuck(o), build),
             BuiltOrders(o.recreated, build));
  }

  lemma FaithfulAreBuilt(legs: Legs, book: Book, build: Builder)
    requires Faithful(legs, book, build)
    ensures AllBuilt(legs, build)
  {
    forall i | 0 <= i < |legs| ensures build(legs[i].0, legs[i].1).Some? {
      assert IsLive(book, legs[i].1.orderId.value);
    }
  }

  lemma TakeAway(after: multiset<Order>, before: multiset<Order>, lost: multiset<Order>, stuck: multiset<Order>,
                 recreated: multiset<Order>)
    requires after + (recreated + lost) == before + stuck + recreated
    ensures after + lost == before + stuck
  {
    forall x ensures (after + lost)[x] == (before + stuck)[x] {
      assert (after + (recreated + lost))[x] == (before + stuck + recreated)[x];
    }
  }
}
