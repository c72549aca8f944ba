/** What an amendment asks of the venue: the terms of every order it sends, in terms of the
    requested legs, and when all of it succeeds. */
module AmendTerms {
  import opened AmendAccounting
  import opened Basics
  import opened Grid
  import opened LotSizing
  import opened ProtectionAmend

  // ------------------------------------------------------------ the terms of an order

  predicate IsNear(x: real, y: real, slack: real) {
    y - slack <= x <= y + slack
  }

  /** The stop price is the leg's trigger, as text. */
  ghost predicate StopFollows(order: Order, leg: Leg) {
    && IsNear(order.stopPrice, leg.triggerPrice, FORMAT_UNIT / 2.0)
    && (OnGrid(leg.triggerPrice, FORMAT_UNIT) ==> order.stopPrice == leg.triggerPrice)
  }

  /** A limit order carries the leg's limit price, to the contract's precision and as text; a
      market order carries none. */
  ghost predicate PriceFollows(order: Order, leg: Leg, contract: Contract) {
    var unit := PrecisionUnit(contract.pricePrecision);
    if leg.orderType != "limit" then order.price == None
    else
      && order.price.Some?
      && IsNear(order.price.value, leg.limitPrice, unit / 2.0 + FORMAT_UNIT / 2.0)
      && (OnGrid(leg.limitPrice, unit) && OnGrid(leg.limitPrice, FORMAT_UNIT) ==> order.price.value == leg.limitPrice)
  }

  /** The quantity is the amendment's own, normalised at the trigger price; on an aligned contract
      that is the nearest lot. */
  ghost predicate QuantityFollows(order: Order, leg: Leg, quantity: real, contract: Contract) {
    var least := BingxMinimumQuantity(contract.lot, leg.triggerPrice);
    && order.quantity == FormatDecimal(BingxNormalizeQuantity(quantity, contract.lot, leg.triggerPrice))
    && (Aligned(contract.lot) && quantity > 0.0 ==>
          IsNearestLot(order.quantity, quantity, contract.lot.sizeStep, least))
  }

  /** The order a leg asks for. */
  ghost predicate Carries(order: Order, name: LegName, leg: Leg, quantity: real, contract: Contract) {
    && order.leg == name && (order.limitType <==> leg.orderType == "limit")
    && StopFollows(order, leg) && PriceFollows(order, leg, contract) && QuantityFollows(order, leg, quantity, contract)
    && order.workingType
       == (if leg.workingType == "CONTRACT_PRICE" then "CONTRACT_PRICE" else "MARK_PRICE")
  }

  /** The leg can be placed at all: prices where they are needed, and a quantity left. */
  predicate CanBePlaced(leg: Leg, quantity: real, contract: Contract) {
    && leg.triggerPrice > 0.0 && (leg.orderType == "limit" ==> leg.limitPrice > 0.0)
    && BingxNormalizeQuantity(quantity, contract.lot, leg.triggerPrice) > 0.0
  }

  lemma TwiceRounded(x: real, unit: real)
    requires unit > 0.0
    ensures var r := FormatDecimal(RoundTo(x, unit));
            && IsNear(r, x, unit / 2.0 + FORMAT_UNIT / 2.0)
            && (OnGrid(x, unit) && OnGrid(x, FORMAT_UNIT) ==> r == x)
  {
    RoundToNearest(x, unit);
    RoundToNearest(RoundTo(x, unit), FORMAT_UNIT);
    if OnGrid(x, unit) && OnGrid(x, FORMAT_UNIT) {
      RoundToOnGrid(x, unit);
      RoundToOnGrid(x, FORMAT_UNIT);
    }
  }

  /** An order is built exactly for a leg that can be placed, and carries its terms. */
  lemma BuiltOrderCarries(name: LegName, leg: Leg, quantity: real, contract: Contract)
    ensures BuildOrder(name, leg, quantity, contract).Some? <==> CanBePlaced(leg, quantity, contract)
    ensures BuildOrder(name, leg, quantity, contract).Some? ==>
              Carries(BuildOrder(name, leg, quantity, contract).value, name, leg, quantity, contract)
  {
    hide RoundTo, OnGrid, PrecisionUnit, BingxNormalizeQuantity, BingxMinimumQuantity, Aligned, IsNearestLot;
    RoundToNearest(leg.triggerPrice, FORMAT_UNIT);
    if OnGrid(leg.triggerPrice, FORMAT_UNIT) {
      RoundToOnGrid(leg.triggerPrice, FORMAT_UNIT);
    }
    TwiceRounded(leg.limitPrice, PrecisionUnit(contract.pricePrecision));
    if Aligned(contract.lot) && quantity > 0.0 {
      BingxNormalizeIsNearest(quantity, contract.lot, leg.triggerPrice);
    }
  }

  /** One order for each leg, in order, each on its leg's terms. */
  ghost predicate CarriedBy(orders: seq<Order>, legs: Legs, quantity: real, contract: Contract) {
    |orders| == |legs| && forall i :: 0 <= i < |legs| ==> Carries(orders[i], legs[i].0, legs[i].1, quantity, contract)
  }

  lemma {:induction false} BuiltAreCarried(legs: Legs, quantity: real, contract: Contract) returns (orders: seq<Order>)
    requires AllBuilt(legs, BuilderFor(quantity, contract))
    ensures CarriedBy(orders, legs, quantity, contract)
    ensures BuiltOrders(legs, BuilderFor(quantity, contract)) == multiset(orders)
  {
    orders := [];
    if legs != [] {
      hide Carries, CarriedBy, BuildOrder, AllBuilt;
      var init, last := legs[..|legs| - 1], legs[|legs| - 1];
      assert init + [last] == legs;
      BuiltOneMore(init, last, BuilderFor(quantity, contract));
      var earlier := BuiltAreCarried(init, quantity, contract);
      BuiltOrderCarries(last.0, last.1, quantity, contract);
      var order := BuildOrder(last.0, last.1, quantity, contract).value;
      CarriedOneMore(earlier, init, order, last, quantity, contract);
      orders := earlier + [order];
    }
  }

  lemma CarriedOneMore(orders: seq<Order>, legs: Legs, order: Order, leg: (LegName, Leg), quantity: real,
                       contract: Contract)
    requires CarriedBy(orders, legs, quantity, contract) && Carries(order, leg.0, leg.1, quantity, contract)
    ensures CarriedBy(orders + [order], legs + [leg], quantity, contract)
  {
    hide Carries;
    forall i | 0 <= i < |legs| + 1
      ensures Carries((orders + [order])[i], (legs + [leg])[i].0, (legs + [leg])[i].1, quantity, contract)
    {
    }
  }

  /** The legs of a protection, the stop first. */
  function AskedLegs(p: Protection): Legs {
    (if p.stopLoss.Some? then [(StopLoss, p.stopLoss.value)] else []) +
    (if p.takeProfit.Some? then [(TakeProfit, p.takeProfit.value)] else [])
  }

  /** Those of them that are known by an order id. */
  function KnownLegs(p: Protection): Legs {
    (if p.stopLoss.Some? && p.stopLoss.value.orderId.Some? then [(StopLoss, p.stopLoss.value)] else []) +
    (if p.takeProfit.Some? && p.takeProfit.value.orderId.Some? then [(TakeProfit, p.takeProfit.value)] else [])
  }

  lemma KnownAreAll(p: Protection)
    ensures LegsUpTo(Identified(p), 2) == KnownLegs(p)
  {
    AskedAreAll(Identified(p));
  }

  lemma AskedAreAll(p: Protection)
    ensures LegsUpTo(p, 2) == AskedLegs(p)
  {
    assert LegsUpTo(p, 0) == [];
    assert LegsUpTo(p, 1) == if p.stopLoss.Some? then [(StopLoss, p.stopLoss.value)] else [];
  }

  /** The live orders after a replacement: those of before, less the identified old ones, plus one
      on the terms of each requested leg. */
  ghost predicate ReplacedOnTerms(before: Book, after: Book, active: Protection, requested: Protection, quantity: real,
                                  contract: Contract)
  {
    exists orders: seq<Order> ::
      && CarriedBy(orders, AskedLegs(requested), quantity, contract)
      && LiveOrders(after) + OriginalOrders(KnownLegs(active), before) == LiveOrders(before) + multiset(orders)
  }

  /** After a failure: those of before, less the cancelled ones, plus one on the terms of each
      stuck replacement and of each recreated record. */
  ghost predicate RolledBackOnTerms(o: Outcome, before: Book, after: Book, quantity: real, contract: Contract)
    requires o.RolledBack?
  {
    exists stuck: seq<Order>, again: seq<Order> ::
      && CarriedBy(stuck, Stuck(o), quantity, contract) && CarriedBy(again, o.recreated, quantity, contract)
      && LiveOrders(after) + OriginalOrders(o.cancelled, before)
         == LiveOrders(before) + multiset(stuck) + multiset(again)
  }

  lemma ReplacementHasTerms(o: Outcome, before: Book, after: Book, active: Protection, requested: Protection,
                            quantity: real, contract: Contract)
    requires o.Replaced? && ReplaceAccounts(o, before, after, active, requested, BuilderFor(quantity, contract))
    ensures ReplacedOnTerms(before, after, active, requested, quantity, contract)
  {
    AskedAreAll(requested);
    KnownAreAll(active);
    var orders := BuiltAreCarried(o.created, quantity, contract);
  }

  lemma RollbackHasTerms(o: Outcome, before: Book, after: Book, quantity: real, contract: Contract)
    requires o.RolledBack? && LegsAccountFor(o, BuilderFor(quantity, contract))
    requires OrdersAccountFor(o, before, after, BuilderFor(quantity, contract))
    ensures RolledBackOnTerms(o, before, after, quantity, contract)
  {
    PartsAreBuilt(o.created, o.undone, Stuck(o), BuilderFor(quantity, contract));
    var stuck := BuiltAreCarried(Stuck(o), quantity, contract);
    var again := BuiltAreCarried(o.recreated, quantity, contract);
  }

  // ------------------------------------------------------------ when it succeeds

  predicate AllSucceed(fates: nat -> Fate, sent: nat, count: nat) {
    forall i: nat :: sent <= i < sent + count ==> fates(i).succeeds
  }

  lemma SucceedInTurn(fates: nat -> Fate, sent: nat, first: nat, second: nat)
    ensures AllSucceed(fates, sent, first + second)
            <==> AllSucceed(fates, sent, first) && AllSucceed(fates, sent + first, second)
  {
  }

  /** With the legs so far cancelled, the next order is live if it was and is not one of theirs. */
  lemma LiveNow(book: Book, now: Book, legs: Legs, id: nat)
    requires Emptied(book, now, legs)
    ensures IsLive(now, id) <==> IsLive(book, id) && !HasId(legs, id)
  {
  }

  ghost predicate CancelsIff(r: CancelRun, legs: Legs, book: Book, sent: nat, fates: nat -> Fate) {
    && (r.ok <==> Cancellable(legs, book) && AllSucceed(fates, sent, |legs|))
    && (r.ok ==> r.sent == sent + |legs|)
  }

  lemma CancelNextSucceeds(book: Book, sent: nat, before: CancelRun, active: Protection, n: nat, fates: nat -> Fate)
    requires 0 < n <= 2 && CancelAccounts(book, before, active, n - 1)
    requires CancelsIff(before, LegsUpTo(Identified(active), n - 1), book, sent, fates)
    ensures CancelsIff(CancelNext(before, LEG_ORDER[n - 1], active.Get(LEG_ORDER[n - 1]), fates),
                       LegsUpTo(Identified(active), n), book, sent, fates)
  {
    var name, leg := LEG_ORDER[n - 1], active.Get(LEG_ORDER[n - 1]);
    var legs := LegsUpTo(Identified(active), n - 1);
    IdentifiedStep(active, n);
    if leg.Some? && leg.value.orderId.Some? {
      assert before.ok ==> Emptied(book, before.book, legs);
      hide Cancellable, AllSucceed, Emptied, LegsUpTo, HasId, CancelAccounts, CancelledFrom;
      CancellableOneMore(legs, (name, leg.value), book);
      SucceedInTurn(fates, sent, |legs|, 1);
      OneSucceeds(fates, sent + |legs|);
      if before.ok {
        LiveNow(book, before.book, legs, leg.value.orderId.value);
      }
    }
  }

  lemma AskedCanBeBuilt(requested: Protection, quantity: real, contract: Contract)
    ensures AllBuilt(AskedLegs(requested), BuilderFor(quantity, contract))
            <==> && (requested.stopLoss.Some? ==> CanBePlaced(requested.stopLoss.value, quantity, contract))
                 && (requested.takeProfit.Some? ==> CanBePlaced(requested.takeProfit.value, quantity, contract))
  {
    var legs := AskedLegs(requested);
    if requested.stopLoss.Some? {
      BuiltOrderCarries(StopLoss, requested.stopLoss.value, quantity, contract);
      assert legs[0] == (StopLoss, requested.stopLoss.value);
    }
    if requested.takeProfit.Some? {
      BuiltOrderCarries(TakeProfit, requested.takeProfit.value, quantity, contract);
      assert legs[|legs| - 1] == (TakeProfit, requested.takeProfit.value);
    }
  }

  lemma OneSucceeds(fates: nat -> Fate, sent: nat)
    ensures AllSucceed(fates, sent, 1) <==> fates(sent).succeeds
  {
  }

  lemma CancellableOneMore(legs: Legs, leg: (LegName, Leg), book: Book)
    requires leg.1.orderId.Some?
    ensures Cancellable(legs + [leg], book)
            <==> Cancellable(legs, book) && IsLive(book, leg.1.orderId.value) && !HasId(legs, leg.1.orderId.value)
  {
    var more := legs + [leg];
    assert more[|legs|] == leg && forall i :: 0 <= i < |legs| ==> more[i] == legs[i];
    if Cancellable(more, book) {
      assert Cancellable(legs, book) by {
        forall i | 0 <= i < |legs| ensures legs[i].1.orderId.Some? && IsLive(book, legs[i].1.orderId.value) {
          assert more[i] == legs[i];
        }
        forall i, j | 0 <= i < j < |legs| ensures legs[i].1.orderId != legs[j].1.orderId {
          assert more[i] == legs[i] && more[j] == legs[j];
        }
      }
    }
  }

  lemma {:induction false} CancelSucceedsIff(book: Book, sent: nat, active: Protection, fates: nat -> Fate, n: nat)
    requires n <= 2
    ensures CancelsIff(CancelPass(book, sent, active, fates, n), LegsUpTo(Identified(active), n), book, sent, fates)
  {
    if n > 0 {
      CancelSucceedsIff(book, sent, active, fates, n - 1);
      CancelPassAccounts(book, sent, active, fates, n - 1);
      CancelNextSucceeds(book, sent, CancelPass(book, sent, active, fates, n - 1), active, n, fates);
    }
  }

  lemma {:induction false} PlaceSucceedsIff(book: Book, sent: nat, requested: Protection, build: Builder,
                                            fates: nat -> Fate, n: nat)
    requires n <= 2
    ensures var legs, r := LegsUpTo(requested, n), PlacePass(book, sent, requested, build, fates, n);
            && (r.ok <==> AllBuilt(legs, build) && AllSucceed(fates, sent, |legs|))
            && (r.ok ==> r.sent == sent + |legs|)
  {
    if n > 0 {
      PlaceSucceedsIff(book, sent, requested, build, fates, n - 1);
      RequestedStep(requested, n);
      var name, leg, legs := LEG_ORDER[n - 1], requested.Get(LEG_ORDER[n - 1]), LegsUpTo(requested, n - 1);
      if leg.Some? {
        BuiltOneMore(legs, (name, leg.value), build);
        SucceedInTurn(fates, sent, |legs|, 1);
        OneSucceeds(fates, sent + |legs|);
      }
    }
  }

  /** An amendment succeeds exactly if every old order it knows is live and named once, every
      requested leg can be built, and every request it takes goes through. */
  lemma SucceedsIff(before: Book, sent: nat, active: Protection, requested: Protection, build: Builder,
                    fates: nat -> Fate)
    ensures var olds, news := KnownLegs(active), AskedLegs(requested);
            AmendRun(before, sent, active, requested, build, fates).0.Replaced?
            <==> Cancellable(olds, before) && AllBuilt(news, build) && AllSucceed(fates, sent, |olds| + |news|)
  {
    AskedAreAll(requested);
    KnownAreAll(active);
    CancelSucceedsIff(before, sent, active, fates, 2);
    var c := CancelPass(before, sent, active, fates, 2);
    var olds, news := KnownLegs(active), AskedLegs(requested);
    PlaceSucceedsIff(c.book, c.sent, requested, build, fates, 2);
    SucceedInTurn(fates, sent, |olds|, |news|);
  }
}
