/** Whether a rollback that reports `restored` can be believed: when the records it rebuilds the
    old orders from are true, and which records are. */
module AmendHonesty {
  import opened AmendAccounting
  import opened AmendTerms
  import opened Basics
  import opened Grid
  import opened LotSizing
  import opened ProtectionAmend

  // ------------------------------------------------------------ when `restored` can be believed

  /** `restored` and the book: with no error left over, the live orders are those of before
      exactly when the cancelled legs' records rebuild the orders that were cancelled. */
  lemma RestoredMeansBack(o: Outcome, before: Book, after: Book, build: Builder)
    requires o.RolledBack? && o.restored
    requires OrdersAccountFor(o, before, after, build) && LegsAccountFor(o, build)
    ensures o.recreated == o.cancelled && o.undone == o.created && AllBuilt(o.cancelled, build)
    ensures LiveOrders(after) == LiveOrders(before)
            <==> OriginalOrders(o.cancelled, before) == BuiltOrders(o.cancelled, build)
  {
    NoErrors(|Stuck(o)|, Lost(o));
    NothingFailed(o.cancelled, o.recreated, Lost(o));
    NothingFailed(o.created, o.undone, Stuck(o));
    Cancellation(LiveOrders(after), OriginalOrders(o.cancelled, before), LiveOrders(before),
                 BuiltOrders(o.recreated, build));
  }

  lemma Cancellation(after: multiset<Order>, originals: multiset<Order>, before: multiset<Order>,
                     recreated: multiset<Order>)
    requires after + originals == before + multiset{} + recreated
    ensures after == before <==> originals == recreated
  {
    forall x ensures after[x] + originals[x] == before[x] + recreated[x] {
      assert (after + originals)[x] == (before + multiset{} + recreated)[x];
    }
    if after == before {
      forall x ensures originals[x] == recreated[x] {
      }
    }
    if originals == recreated {
      forall x ensures after[x] == before[x] {
      }
    }
  }

  ghost predicate PrefixIsTrue(legs: Legs, book: Book, build: Builder) {
    Cancellable(legs, book) && AllBuilt(legs, build) ==> Faithful(legs, book, build)
  }

  /** What a caller can check beforehand: of the legs that a first pass may cancel and a rollback
      may build again, every record rebuilds the order its id stands for. */
  ghost predicate RecordsAreTrue(active: Protection, book: Book, build: Builder) {
    forall k: nat :: k <= 2 ==> PrefixIsTrue(LegsUpTo(Identified(active), k), book, build)
  }

  /** No amendment from here reports `restored` without the live orders being those of before. */
  ghost predicate RestoredIsHonest(active: Protection, book: Book, build: Builder) {
    forall sent: nat, requested: Protection, fates: nat -> Fate ::
      var (o, after) := AmendRun(book, sent, active, requested, build, fates);
      o.RolledBack? && o.restored ==> LiveOrders(after) == LiveOrders(book)
  }

  lemma TrueRecordsRestore(book: Book, sent: nat, active: Protection, requested: Protection, build: Builder,
                           fates: nat -> Fate)
    requires RecordsAreTrue(active, book, build)
    ensures var (o, after) := AmendRun(book, sent, active, requested, build, fates);
            o.RolledBack? && o.restored ==> LiveOrders(after) == LiveOrders(book)
  {
    var (o, after) := AmendRun(book, sent, active, requested, build, fates);
    AmendRunAccounts(book, sent, active, requested, build, fates);
    if o.RolledBack? && o.restored {
      RestoredMeansBack(o, book, after, build);
      var k: nat :| k <= 2 && o.cancelled == LegsUpTo(Identified(active), k);
      assert PrefixIsTrue(o.cancelled, book, build);
      FaithfulRebuildsOriginals(o.cancelled, book, build);
    }
  }

  /** The fates that fail one request and let all others through. */
  function FailOnly(n: nat): nat -> Fate {
    (i: nat) => Fate(i != n, true)
  }

  /** The protection with the last of these legs alone. */
  function LastLeg(legs: Legs): Protection
    requires legs != []
  {
    var (name, leg) := legs[|legs| - 1];
    if name == StopLoss then Protection(Some(leg), None) else Protection(None, Some(leg))
  }

  /** An amendment that cancels exactly these legs, is refused once, and puts them all back. */
  lemma RunThatRestores(book: Book, active: Protection, build: Builder, k: nat)
    requires 0 < k <= 2
    requires var legs := LegsUpTo(Identified(active), k);
             legs != [] && Cancellable(legs, book) && AllBuilt(legs, build)
    ensures var legs := LegsUpTo(Identified(active), k);
            var o := AmendRun(book, 0, active, LastLeg(legs), build, FailOnly(|legs|)).0;
            o.RolledBack? && o.restored && o.cancelled == legs
  {
    var legs := LegsUpTo(Identified(active), k);
    var fates := FailOnly(|legs|);
    CancelPassReaches(book, active, fates, k);
    var c := CancelPass(book, 0, active, fates, 2);
    if c.ok {
      RefusedPlacement(c.book, legs, build, fates);
    }
    assert UndoPass(c.book, |legs| + 1, [], fates, 0) == UndoRun([], [], c.book, |legs| + 1);
    AllRecreated(c.book, |legs| + 1, legs, build, fates, |legs|);
    assert legs[..|legs|] == legs;
    assert UndoErrors(0) + LostErrors([]) == [];
  }

  /** The placement of the last leg, refused by the venue. */
  lemma RefusedPlacement(book: Book, legs: Legs, build: Builder, fates: nat -> Fate)
    requires legs != [] && AllBuilt(legs, build) && fates == FailOnly(|legs|)
    ensures PlacePass(book, |legs|, LastLeg(legs), build, fates, 2)
            == PlaceRun([], Protection(None, None), false, book, |legs| + 1)
  {
    var last := legs[|legs| - 1];
    var start := PlaceRun([], Protection(None, None), true, book, |legs|);
    assert build(last.0, last.1).Some? && !fates(|legs|).succeeds;
    assert PlacePass(book, |legs|, LastLeg(legs), build, fates, 0) == start;
    assert PlacePass(book, |legs|, LastLeg(legs), build, fates, 1)
           == PlaceNext(start, StopLoss, LastLeg(legs).stopLoss, build, fates);
  }

  /** With every request let through up to there, the first pass gets through its first `k` legs. */
  lemma CancelPassReaches(book: Book, active: Protection, fates: nat -> Fate, k: nat)
    requires 0 < k <= 2
    requires var legs := LegsUpTo(Identified(active), k);
             legs != [] && Cancellable(legs, book) && fates == FailOnly(|legs|)
    ensures var legs := LegsUpTo(Identified(active), k);
            var c := CancelPass(book, 0, active, fates, 2);
            c.cancelled == legs && c.sent == |legs| + (if c.ok then 0 else 1)
  {
    var legs := LegsUpTo(Identified(active), k);
    IdentifiedStep(active, 1);
    IdentifiedStep(active, 2);
    assert LegsUpTo(Identified(active), 0) == [];
    var start := CancelRun([], true, book, 0);
    assert CancelPass(book, 0, active, fates, 0) == start;
    assert CancelPass(book, 0, active, fates, 1) == CancelNext(start, StopLoss, active.stopLoss, fates);
    var one := CancelPass(book, 0, active, fates, 1);
    assert CancelPass(book, 0, active, fates, 2) == CancelNext(one, TakeProfit, active.takeProfit, fates);
    assert IsLive(book, legs[0].1.orderId.value);
    if |legs| == 2 {
      assert IsLive(book, legs[1].1.orderId.value) && legs[0].1.orderId != legs[1].1.orderId;
    }
  }

  lemma {:induction false} AllRecreated(book: Book, sent: nat, legs: Legs, build: Builder, fates: nat -> Fate, n: nat)
    requires n <= |legs| && AllBuilt(legs, build) && forall i: nat :: i >= sent ==> fates(i).succeeds
    ensures var r := RecreatePass(book, sent, legs, build, fates, n);
            r.recreated == legs[..n] && r.lost == [] && r.sent == sent + n
  {
    if n > 0 {
      AllRecreated(book, sent, legs, build, fates, n - 1);
      assert legs[..n] == legs[..n - 1] + [legs[n - 1]];
    }
  }

  lemma FaithfulOneMore(legs: Legs, leg: (LegName, Leg), book: Book, build: Builder)
    requires leg.1.orderId.Some? && IsLive(book, leg.1.orderId.value)
    ensures Faithful(legs + [leg], book, build)
            <==> Faithful(legs, book, build) && book[leg.1.orderId.value] == build(leg.0, leg.1)
  {
    var more := legs + [leg];
    assert more[|legs|] == leg;
    if Faithful(more, book, build) {
      forall i | 0 <= i < |legs|
        ensures legs[i].1.orderId.Some? && IsLive(book, legs[i].1.orderId.value)
                && book[legs[i].1.orderId.value] == build(legs[i].0, legs[i].1)
      {
        assert more[i] == legs[i];
      }
    }
  }

  lemma OneMoreDiffers<T>(rest: multiset<T>, a: T, b: T)
    requires a != b
    ensures rest + multiset{a} != rest + multiset{b}
  {
    assert (rest + multiset{a})[a] == rest[a] + 1;
    assert (rest + multiset{b})[a] == rest[a];
  }

  /** One record that builds another order than its own is enough to tell the books apart. */
  lemma LastRecordFalse(legs: Legs, book: Book, build: Builder)
    requires legs != [] && Cancellable(legs, book) && AllBuilt(legs, build)
    requires Faithful(legs[..|legs| - 1], book, build) && !Faithful(legs, book, build)
    ensures OriginalOrders(legs, book) != BuiltOrders(legs, build)
  {
    var init, last := legs[..|legs| - 1], legs[|legs| - 1];
    assert legs == init + [last];
    FaithfulRebuildsOriginals(init, book, build);
    var id := last.1.orderId.value;
    if book[id] == build(last.0, last.1) {
      FaithfulOneMore(init, last, book, build);
    } else {
      OneMoreDiffers(OriginalOrders(init, book), book[id].value, build(last.0, last.1).value);
    }
  }

  lemma FalseRecordDeceives(book: Book, active: Protection, build: Builder, k: nat)
    requires 0 < k <= 2
    requires var legs := LegsUpTo(Identified(active), k);
             && legs != [] && Cancellable(legs, book) && AllBuilt(legs, build)
             && Faithful(legs[..|legs| - 1], book, build) && !Faithful(legs, book, build)
    ensures var legs := LegsUpTo(Identified(active), k);
            var (o, after) := AmendRun(book, 0, active, LastLeg(legs), build, FailOnly(|legs|));
            o.RolledBack? && o.restored && LiveOrders(after) != LiveOrders(book)
  {
    var legs := LegsUpTo(Identified(active), k);
    var (o, after) := AmendRun(book, 0, active, LastLeg(legs), build, FailOnly(|legs|));
    RunThatRestores(book, active, build, k);
    AmendRunAccounts(book, 0, active, LastLeg(legs), build, FailOnly(|legs|));
    RestoredMeansBack(o, book, after, build);
    LastRecordFalse(legs, book, build);
  }

  /** The exact condition: `restored` can be believed, whatever is requested and however the
      requests fare, if and only if the records are true. */
  lemma RestoredIsHonestIff(active: Protection, book: Book, build: Builder)
    ensures RestoredIsHonest(active, book, build) <==> RecordsAreTrue(active, book, build)
  {
    if RecordsAreTrue(active, book, build) {
      forall sent: nat, requested: Protection, fates: nat -> Fate
        ensures var (o, after) := AmendRun(book, sent, active, requested, build, fates);
                o.RolledBack? && o.restored ==> LiveOrders(after) == LiveOrders(book)
      {
        TrueRecordsRestore(book, sent, active, requested, build, fates);
      }
    } else {
      FalsePrefix(active, book, build);
      var k := if PrefixIsTrue(LegsUpTo(Identified(active), 1), book, build) then 2 else 1;
      FalseRecordDeceives(book, active, build, k);
      var legs := LegsUpTo(Identified(active), k);
      var (o, after) := AmendRun(book, 0, active, LastLeg(legs), build, FailOnly(|legs|));
      assert o.RolledBack? && o.restored && LiveOrders(after) != LiveOrders(book);
    }
  }

  lemma ThreePrefixes(active: Protection, book: Book, build: Builder)
    ensures RecordsAreTrue(active, book, build)
            <==> PrefixIsTrue(LegsUpTo(Identified(active), 1), book, build)
                 && PrefixIsTrue(LegsUpTo(Identified(active), 2), book, build)
  {
    assert LegsUpTo(Identified(active), 0) == [];
  }

  lemma PrefixHolds(init: Legs, last: (LegName, Leg), book: Book, build: Builder)
    requires Cancellable(init + [last], book) && AllBuilt(init + [last], build)
    ensures Cancellable(init, book) && AllBuilt(init, build)
  {
    var more := init + [last];
    BuiltOneMore(init, last, build);
    forall i | 0 <= i < |init| ensures init[i] == more[i] {
    }
    forall i | 0 <= i < |init| ensures init[i].1.orderId.Some? && IsLive(book, init[i].1.orderId.value) {
      assert more[i] == init[i];
    }
    forall i, j | 0 <= i < j < |init| ensures init[i].1.orderId != init[j].1.orderId {
      assert more[i] == init[i] && more[j] == init[j];
    }
  }

  /** The shortest prefix with a false record has it in last place. */
  lemma FalsePrefix(active: Protection, book: Book, build: Builder)
    requires !RecordsAreTrue(active, book, build)
    ensures var one, two := LegsUpTo(Identified(active), 1), LegsUpTo(Identified(active), 2);
            if !PrefixIsTrue(one, book, build) then one != [] && Faithful(one[..|one| - 1], book, build)
            else two != [] && !PrefixIsTrue(two, book, build) && Faithful(two[..|two| - 1], book, build)
  {
    var one, two := LegsUpTo(Identified(active), 1), LegsUpTo(Identified(active), 2);
    ThreePrefixes(active, book, build);
    IdentifiedStep(active, 1);
    IdentifiedStep(active, 2);
    assert LegsUpTo(Identified(active), 0) == [];
    if PrefixIsTrue(one, book, build) {
      var last := two[|two| - 1];
      assert two == one + [last];
      PrefixHolds(one, last, book, build);
    } else {
      assert one[..|one| - 1] == [];
    }
  }

  /** The endpoint: nothing is sent for a non-positive quantity; otherwise the saga runs with
      the adapter's own order builder. */
  method AmendLiveOrder(venue: Venue, active: Protection, requested: Protection, quantity: real, contract: Contract)
    returns (o: Option<Outcome>)
    modifies venue
    ensures o.None? <==> quantity <= 0.0
    ensures o.None? ==> venue.book == old(venue.book) && venue.sent == old(venue.sent)
    ensures o.Some? ==>
              (o.value, venue.book)
              == AmendRun(old(venue.book), old(venue.sent), active, requested, BuilderFor(quantity, contract), venue.fates)
    ensures o.Some? && o.value.Replaced? ==>
              ReplaceAccounts(o.value, old(venue.book), venue.book, active, requested, BuilderFor(quantity, contract))
    ensures o.Some? && o.value.RolledBack? ==>
              RollbackAccounts(o.value, old(venue.book), venue.book, active, requested, BuilderFor(quantity, contract))
    ensures o.Some? ==>
              (o.value.Replaced?
               <==> && Cancellable(KnownLegs(active), old(venue.book))
                    && (requested.stopLoss.Some? ==> CanBePlaced(requested.stopLoss.value, quantity, contract))
                    && (requested.takeProfit.Some? ==> CanBePlaced(requested.takeProfit.value, quantity, contract))
                    && AllSucceed(venue.fates, old(venue.sent), |KnownLegs(active)| + |AskedLegs(requested)|))
    ensures o.Some? && o.value.Replaced? ==>
              ReplacedOnTerms(old(venue.book), venue.book, active, requested, quantity, contract)
    ensures o.Some? && o.value.RolledBack? ==>
              RolledBackOnTerms(o.value, old(venue.book), venue.book, quantity, contract)
    ensures RecordsAreTrue(active, old(venue.book), BuilderFor(quantity, contract))
            && o.Some? && o.value.RolledBack? && o.value.restored ==>
              LiveOrders(venue.book) == LiveOrders(old(venue.book))
  {
    if quantity <= 0.0 {
      return None;
    }
    ghost var before, sent := venue.book, venue.sent;
    var outcome := Amend(venue, active, requested, BuilderFor(quantity, contract));
    AmendRunAccounts(before, sent, active, requested, BuilderFor(quantity, contract), venue.fates);
    SucceedsIff(before, sent, active, requested, BuilderFor(quantity, contract), venue.fates);
    AskedCanBeBuilt(requested, quantity, contract);
    if outcome.Replaced? {
      ReplacementHasTerms(outcome, before, venue.book, active, requested, quantity, contract);
    } else {
      RollbackHasTerms(outcome, before, venue.book, quantity, contract);
    }
    if RecordsAreTrue(active, before, BuilderFor(quantity, contract)) {
      TrueRecordsRestore(before, sent, active, requested, BuilderFor(quantity, contract), venue.fates);
    }
    o := Some(outcome);
  }

  // ------------------------------------------------------------ which records are true

  /** The record the adapter itself keeps of a leg it placed. */
  function SnapshotLeg(leg: Leg, id: nat): Leg {
    Leg(Some(id), FormatDecimal(leg.triggerPrice), leg.orderType, FormatDecimal(leg.limitPrice),
        WorkingType(leg.workingType))
  }

  /** The record read back from the venue's open orders: it carries the venue's own order type
      and no limit price, and its trigger is the order's price where that is listed, the stop
      price only otherwise. */
  function OpenOrderLeg(order: Order, id: nat): Leg {
    Leg(Some(id), if order.price.Some? then order.price.value else order.stopPrice,
        match (order.leg, order.limitType)
        case (StopLoss, true) => "stop"
        case (StopLoss, false) => "stop_market"
        case (TakeProfit, true) => "take_profit"
        case (TakeProfit, false) => "take_profit_market",
        0.0, order.workingType)
  }

  /** Prices on the eight-decimal grid survive the adapter's own record. */
  lemma SnapshotIsFaithful(name: LegName, leg: Leg, id: nat, quantity: real, contract: Contract)
    requires OnGrid(leg.triggerPrice, FORMAT_UNIT) && OnGrid(leg.limitPrice, FORMAT_UNIT)
    ensures BuildOrder(name, SnapshotLeg(leg, id), quantity, contract) == BuildOrder(name, leg, quantity, contract)
  {
    RoundToOnGrid(leg.triggerPrice, FORMAT_UNIT);
    RoundToOnGrid(leg.limitPrice, FORMAT_UNIT);
  }

  lemma OpenOrderIsNoLimit(order: Order, id: nat)
    ensures !IsLimit(OpenOrderLeg(order, id))
  {
    assert OpenOrderLeg(order, id).orderType[0] != 'l';
  }

  /** A stored order that a record of it can bring back during an amendment for `quantity`: a
      market order with no price listed, a stop price on the text grid, one of the two working
      types, and the very quantity the amendment would place. */
  predicate Recoverable(order: Order, quantity: real, contract: Contract) {
    var placed := BingxNormalizeQuantity(quantity, contract.lot, order.stopPrice);
    && !order.limitType && order.price.None?
    && order.stopPrice > 0.0 && FormatDecimal(order.stopPrice) == order.stopPrice
    && order.workingType in {"MARK_PRICE", "CONTRACT_PRICE"}
    && placed > 0.0 && order.quantity == FormatDecimal(placed)
  }

  /** Field by field, for any order the venue may hold: exactly then does its open-order record
      rebuild it. */
  lemma OpenOrderRecordIsFaithful(order: Order, id: nat, quantity: real, contract: Contract)
    ensures BuildOrder(order.leg, OpenOrderLeg(order, id), quantity, contract) == Some(order)
            <==> Recoverable(order, quantity, contract)
  {
    OpenOrderIsNoLimit(order, id);
  }

  /** A record that builds an order at all: no error is reported for it, right or wrong. */
  predicate Rebuilds(order: Order, quantity: real, contract: Contract) {
    var trigger := if order.price.Some? then order.price.value else order.stopPrice;
    trigger > 0.0 && BingxNormalizeQuantity(quantity, contract.lot, trigger) > 0.0
  }

  lemma OpenOrderRecordBuilds(order: Order, id: nat, quantity: real, contract: Contract)
    ensures BuildOrder(order.leg, OpenOrderLeg(order, id), quantity, contract).Some?
            <==> Rebuilds(order, quantity, contract)
  {
    OpenOrderIsNoLimit(order, id);
  }

  /** A leg read back from the open order in slot `id`, for a position that has one. */
  function ReadBack(book: Book, id: Option<nat>): Option<Leg>
    requires id.Some? ==> IsLive(book, id.value)
  {
    if id.None? then None else Some(OpenOrderLeg(book[id.value].value, id.value))
  }

  predicate IsLegOrder(book: Book, id: Option<nat>, name: LegName) {
    id.Some? ==> IsLive(book, id.value) && book[id.value].value.leg == name
  }

  predicate LegRebuilds(book: Book, id: Option<nat>, quantity: real, contract: Contract)
    requires id.Some? ==> IsLive(book, id.value)
  {
    id.Some? ==> Rebuilds(book[id.value].value, quantity, contract)
  }

  predicate LegRecoverable(book: Book, id: Option<nat>, quantity: real, contract: Contract)
    requires id.Some? ==> IsLive(book, id.value)
  {
    id.Some? ==> Recoverable(book[id.value].value, quantity, contract)
  }

  /** For a position whose protection was read back from its open orders, be it a stop, a target,
      both or neither: `restored` can be believed exactly when each leg that would be rebuilt
      without an error is recoverable. */
  lemma OpenOrdersAreHonestIff(book: Book, stop: Option<nat>, target: Option<nat>, quantity: real, contract: Contract)
    requires IsLegOrder(book, stop, StopLoss) && IsLegOrder(book, target, TakeProfit)
    ensures var active := Protection(ReadBack(book, stop), ReadBack(book, target));
            RestoredIsHonest(active, book, BuilderFor(quantity, contract))
            <==> (LegRebuilds(book, stop, quantity, contract) ==>
                    LegRecoverable(book, stop, quantity, contract)
                    && (LegRebuilds(book, target, quantity, contract) ==>
                          LegRecoverable(book, target, quantity, contract)))
  {
    var active := Protection(ReadBack(book, stop), ReadBack(book, target));
    var build := BuilderFor(quantity, contract);
    RestoredIsHonestIff(active, book, build);
    if stop.Some? {
      OpenOrderRecordIsFaithful(book[stop.value].value, stop.value, quantity, contract);
      OpenOrderRecordBuilds(book[stop.value].value, stop.value, quantity, contract);
    }
    if target.Some? {
      OpenOrderRecordIsFaithful(book[target.value].value, target.value, quantity, contract);
      OpenOrderRecordBuilds(book[target.value].value, target.value, quantity, contract);
    }
    RecordsByLeg(active, book, build);
  }

  predicate LegStands(leg: Option<Leg>, book: Book) {
    leg.Some? ==> leg.value.orderId.Some? && IsLive(book, leg.value.orderId.value)
  }

  /** Leg by leg: the stop's record comes first, and where nothing is built from it no rollback
      that has got further reports `restored`. */
  lemma RecordsByLeg(active: Protection, book: Book, build: Builder)
    requires LegStands(active.stopLoss, book) && LegStands(active.takeProfit, book)
    requires active.stopLoss.Some? && active.takeProfit.Some? ==>
               active.stopLoss.value.orderId != active.takeProfit.value.orderId
    ensures RecordsAreTrue(active, book, build)
            <==> (Built(StopLoss, active.stopLoss, build) ==>
                    Matches(StopLoss, active.stopLoss, book, build)
                    && (Built(TakeProfit, active.takeProfit, build) ==>
                          Matches(TakeProfit, active.takeProfit, book, build)))
  {
    if active.stopLoss.Some? && active.takeProfit.Some? {
      TwoRecords(active, book, build, (StopLoss, active.stopLoss.value), (TakeProfit, active.takeProfit.value));
    } else if active.stopLoss.Some? {
      OneRecord(active, book, build, (StopLoss, active.stopLoss.value));
    } else if active.takeProfit.Some? {
      OneRecord(active, book, build, (TakeProfit, active.takeProfit.value));
    } else {
      assert LegsUpTo(active, 0) == [] && LegsUpTo(active, 1) == [] && LegsUpTo(active, 2) == [];
      ThreePrefixes(active, book, build);
    }
  }

  predicate Built(name: LegName, leg: Option<Leg>, build: Builder) {
    leg.Some? ==> build(name, leg.value).Some?
  }

  predicate Matches(name: LegName, leg: Option<Leg>, book: Book, build: Builder)
    requires LegStands(leg, book)
  {
    leg.Some? ==> build(name, leg.value) == book[leg.value.orderId.value]
  }

  lemma OneRecord(active: Protection, book: Book, build: Builder, a: (LegName, Leg))
    requires active == if a.0 == StopLoss then Protection(Some(a.1), None) else Protection(None, Some(a.1))
    requires a.1.orderId.Some? && IsLive(book, a.1.orderId.value)
    ensures RecordsAreTrue(active, book, build)
            <==> (build(a.0, a.1).Some? ==> build(a.0, a.1) == book[a.1.orderId.value])
  {
    assert Identified(active) == active;
    assert LegsUpTo(active, 0) == [] && LegsUpTo(active, 2) == [a] && [] + [a] == [a];
    assert LegsUpTo(active, 1) == if a.0 == StopLoss then [a] else [];
    assert Cancellable([a], book);
    BuiltOneMore([], a, build);
    FaithfulOneMore([], a, book, build);
    ThreePrefixes(active, book, build);
  }

  lemma TwoRecords(active: Protection, book: Book, build: Builder, a: (LegName, Leg), b: (LegName, Leg))
    requires a.0 == StopLoss && b.0 == TakeProfit && active == Protection(Some(a.1), Some(b.1))
    requires a.1.orderId.Some? && b.1.orderId.Some? && a.1.orderId != b.1.orderId
    requires IsLive(book, a.1.orderId.value) && IsLive(book, b.1.orderId.value)
    ensures RecordsAreTrue(active, book, build)
            <==> (build(a.0, a.1).Some? ==>
                    build(a.0, a.1) == book[a.1.orderId.value]
                    && (build(b.0, b.1).Some? ==> build(b.0, b.1) == book[b.1.orderId.value]))
  {
    assert Identified(active) == active;
    assert LegsUpTo(active, 0) == [];
    assert LegsUpTo(active, 1) == [a] && [] + [a] == [a];
    assert LegsUpTo(active, 2) == [a, b] && [a] + [b] == [a, b];
    assert Cancellable([a], book) && Cancellable([a, b], book);
    BuiltOneMore([], a, build);
    BuiltOneMore([a], b, build);
    FaithfulOneMore([], a, book, build);
    FaithfulOneMore([a], b, book, build);
    ThreePrefixes(active, book, build);
  }

  // ------------------------------------------------------------ a restored that is not

  lemma TwoLots(price: real)
    ensures BingxNormalizeQuantity(2.0, ContractSpec(1.0, 0, 1.0, 0.0), price) == 2.0 == FormatDecimal(2.0)
  {
    var spec := ContractSpec(1.0, 0, 1.0, 0.0);
    assert RawMinimum(spec, price) == 1.0;
    assert StepFloor(2.0, 1.0) == 2.0 && StepCeil(2.0, 1.0) == 2.0 && StepCeil(1.0, 1.0) == 1.0;
    assert BingxResolve(2.0, 1.0, 1.0) == 2.0;
    assert RoundToPrecision(2.0, 0) == 2.0 by {
      RoundHalfEvenInteger(2);
    }
    assert 2.0 == Multiple(200000000, FORMAT_UNIT);
    RoundToOnGrid(2.0, FORMAT_UNIT);
  }

  /** A stop for one lot on a position that is now two: the amendment is refused, the rollback
      reports `restored`, and the stop that is back is for two lots. */
  lemma RestoredWithAnotherOrder()
    ensures var order := Order(StopLoss, false, 100.0, None, "MARK_PRICE", 1.0);
            var active := Protection(Some(OpenOrderLeg(order, 0)), None);
            var contract := Contract(ContractSpec(1.0, 0, 1.0, 0.0), 2);
            var (o, after) := AmendRun([Some(order)], 0, active, active, BuilderFor(2.0, contract), FailOnly(1));
            && o.RolledBack? && o.restored
            && LiveOrders([Some(order)]) == multiset{order}
            && LiveOrders(after) == multiset{order.(quantity := 2.0)}
  {
    var order := Order(StopLoss, false, 100.0, None, "MARK_PRICE", 1.0);
    var record := OpenOrderLeg(order, 0);
    var active := Protection(Some(record), None);
    var contract := Contract(ContractSpec(1.0, 0, 1.0, 0.0), 2);
    var build := BuilderFor(2.0, contract);
    var legs := [(StopLoss, record)];
    var bigger := order.(quantity := 2.0);
    StopForTwo(order, bigger, record, contract);
    assert LegsUpTo(Identified(active), 0) == [] && LegsUpTo(Identified(active), 1) == legs;
    assert LegsUpTo(Identified(active), 2) == legs && LastLeg(legs) == active;
    assert Cancellable(legs, [Some(order)]) && AllBuilt(legs, build);
    RunThatRestores([Some(order)], active, build, 1);
    OneLegSwapped(order, bigger, active, legs, build);
  }

  lemma StopForTwo(order: Order, bigger: Order, record: Leg, contract: Contract)
    requires order == Order(StopLoss, false, 100.0, None, "MARK_PRICE", 1.0) && bigger == order.(quantity := 2.0)
    requires record == OpenOrderLeg(order, 0) && contract == Contract(ContractSpec(1.0, 0, 1.0, 0.0), 2)
    ensures BuildOrder(StopLoss, record, 2.0, contract) == Some(bigger)
  {
    OpenOrderIsNoLimit(order, 0);
    TwoLots(100.0);
    assert 100.0 == Multiple(10000000000, FORMAT_UNIT);
    RoundToOnGrid(100.0, FORMAT_UNIT);
  }

  lemma {:induction false} OneOrder(order: Order, other: Order, legs: Legs, build: Builder)
    requires |legs| == 1 && legs[0].1.orderId == Some(0) && build(legs[0].0, legs[0].1) == Some(other)
    ensures LiveOrders([Some(order)]) == multiset{order}
    ensures OriginalOrders(legs, [Some(order)]) == multiset{order} && BuiltOrders(legs, build) == multiset{other}
  {
    assert [Some(order)][..0] == [] && legs[..0] == [];
    assert LiveOrders([]) == multiset{} && BuiltOrders([], build) == multiset{};
    assert OriginalOrders([], [Some(order)]) == multiset{};
  }

  lemma Swapped(after: multiset<Order>, order: Order, other: Order)
    requires after + multiset{order} == multiset{order} + multiset{} + multiset{other}
    ensures after == multiset{other}
  {
    forall x ensures after[x] == multiset{other}[x] {
      assert (after + multiset{order})[x] == (multiset{order} + multiset{} + multiset{other})[x];
    }
  }

  /** One order on the book, cancelled and put back as another. */
  lemma OneLegSwapped(order: Order, other: Order, active: Protection, legs: Legs, build: Builder)
    requires |legs| == 1 && legs[0].1.orderId == Some(0) && build(legs[0].0, legs[0].1) == Some(other)
    requires var o := AmendRun([Some(order)], 0, active, active, build, FailOnly(1)).0;
             o.RolledBack? && o.restored && o.cancelled == legs
    ensures LiveOrders([Some(order)]) == multiset{order}
    ensures LiveOrders(AmendRun([Some(order)], 0, active, active, build, FailOnly(1)).1) == multiset{other}
  {
    var (o, after) := AmendRun([Some(order)], 0, active, active, build, FailOnly(1));
    AmendRunAccounts([Some(order)], 0, active, active, build, FailOnly(1));
    RestoredMeansBack(o, [Some(order)], after, build);
    OneOrder(order, other, legs, build);
    NoErrors(|Stuck(o)|, Lost(o));
    assert Stuck(o) == [] && BuiltOrders([], build) == multiset{};
    Swapped(LiveOrders(after), order, other);
  }
}
