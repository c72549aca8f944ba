/** Cancel-and-replace of BingX protection orders. There is no atomic amend at the venue, so
    the adapter cancels the old legs, places the new ones, and compensates when a step fails.
    The venue is a book of order slots; a request either fails without effect or takes effect. */
module ProtectionAmend {
  import opened Basics
  import opened LotSizing
  import opened Grid

  datatype LegName = StopLoss | TakeProfit

  /** What the venue stores: everything about an order except its id. */
  datatype Order = Order(
    leg: LegName,
    limitType: bool,
    stopPrice: real,
    price: Option<real>,
    workingType: string,
    quantity: real)

  /** A leg as requested, or as recorded for an active order (then usually with its id). */
  datatype Leg = Leg(
    orderId: Option<nat>,
    triggerPrice: real,
    orderType: string,
    limitPrice: real,
    workingType: string)

  datatype Protection = Protection(stopLoss: Option<Leg>, takeProfit: Option<Leg>) {
    function Get(name: LegName): Option<Leg> {
      if name == StopLoss then stopLoss else takeProfit
    }
  }

  datatype Contract = Contract(lot: ContractSpec, pricePrecision: int)

  /** The order of both passes over the legs. */
  const LEG_ORDER: seq<LegName> := [StopLoss, TakeProfit]

  // ------------------------------------------------------------ the venue

  /** Each slot is one order id ever issued; a cancelled order leaves its slot empty. */
  type Book = seq<Option<Order>>

  /** The live orders, ids aside. */
  function LiveOrders(book: Book): multiset<Order> {
    if book == [] then multiset{}
    else LiveOrders(book[..|book| - 1]) + (match book[|book| - 1] case None => multiset{} case Some(o) => multiset{o})
  }

  predicate IsLive(book: Book, id: nat) {
    id < |book| && book[id].Some?
  }

  lemma {:induction false} CancelRemovesOne(book: Book, id: nat)
    requires IsLive(book, id)
    ensures LiveOrders(book) == LiveOrders(book[id := None]) + multiset{book[id].value}
  {
    var last := |book| - 1;
    if id == last {
      assert book[id := None][..last] == book[..last];
    } else {
      var shorter := book[..last];
      CancelRemovesOne(shorter, id);
      assert book[id := None][..last] == shorter[id := None];
    }
  }

  lemma PlaceAddsOne(book: Book, order: Order)
    ensures LiveOrders(book + [Some(order)]) == LiveOrders(book) + multiset{order}
  {
    assert (book + [Some(order)])[..|book|] == book;
  }

  /** How one request fares. `echoed` says whether the reply to a placement (or the query
      that follows it) identifies the order; a failed query is ignored by the adapter. */
  datatype Fate = Fate(succeeds: bool, echoed: bool)

  class Venue {
    var book: Book
    var sent: nat
    const fates: nat -> Fate

    constructor (book: Book, fates: nat -> Fate)
      ensures this.book == book && this.fates == fates && sent == 0
    {
      this.book, this.fates, sent := book, fates, 0;
    }

    /** DELETE of one order. An id that is not live is refused by the venue itself. */
    method Cancel(id: nat) returns (ok: bool)
      modifies this
      ensures sent == old(sent) + 1
      ensures ok == (fates(old(sent)).succeeds && IsLive(old(book), id))
      ensures book == if ok then old(book)[id := None] else old(book)
    {
      ok := fates(sent).succeeds && IsLive(book, id);
      sent := sent + 1;
      if ok {
        book := book[id := None];
      }
    }

    /** POST of one order; `id` is what the adapter learns about it. */
    method Place(order: Order) returns (ok: bool, id: Option<nat>)
      modifies this
      ensures sent == old(sent) + 1
      ensures ok == fates(old(sent)).succeeds
      ensures book == if ok then old(book) + [Some(order)] else old(book)
      ensures id == if ok && fates(old(sent)).echoed then Some(|old(book)|) else None
    {
      ok := fates(sent).succeeds;
      id := if ok && fates(sent).echoed then Some(|book|) else None;
      sent := sent + 1;
      if ok {
        book := book + [Some(order)];
      }
    }
  }

  // ------------------------------------------------------------ requests

  predicate IsLimit(leg: Leg) {
    leg.orderType == "limit"
  }

  function PlacedQuantity(quantity: real, leg: Leg, contract: Contract): real {
    BingxNormalizeQuantity(quantity, contract.lot, leg.triggerPrice)
  }

  function WorkingType(raw: string): string {
    if raw in {"MARK_PRICE", "CONTRACT_PRICE"} then raw else "MARK_PRICE"
  }

  /** The order sent for a leg, or None where building its parameters raises. */
  function BuildOrder(name: LegName, leg: Leg, quantity: real, contract: Contract): Option<Order> {
    if leg.triggerPrice <= 0.0 || PlacedQuantity(quantity, leg, contract) <= 0.0 then None
    else if IsLimit(leg) && leg.limitPrice <= 0.0 then None
    else Some(Order(name, IsLimit(leg), FormatDecimal(leg.triggerPrice),
                    if IsLimit(leg) then Some(FormatDecimal(RoundToPrecision(leg.limitPrice, contract.pricePrecision)))
                    else None,
                    WorkingType(leg.workingType),
                    FormatDecimal(PlacedQuantity(quantity, leg, contract))))
  }

  /** How a leg becomes an order. The saga below does not depend on the sizing arithmetic. */
  type Builder = (LegName, Leg) -> Option<Order>

  function BuilderFor(quantity: real, contract: Contract): Builder {
    (name: LegName, leg: Leg) => BuildOrder(name, leg, quantity, contract)
  }

  // ------------------------------------------------------------ the amendment

  type Legs = seq<(LegName, Leg)>

  /** An error names the step that failed; for a replacement, only that it could not be withdrawn. */
  datatype RollbackError = CancelReplacement | RecreateOriginal(leg: LegName)

  datatype ProtectionStatus = NotRequested | Armed | Partial | Refused

  datatype Outcome =
    | Replaced(cancelled: Legs, created: Legs, status: ProtectionStatus, missing: seq<LegName>)
    | RolledBack(cancelled: Legs, created: Legs, undone: Legs, recreated: Legs, errors: seq<RollbackError>,
                 restored: bool)

  function LegCount(p: Protection): nat {
    (if p.takeProfit.Some? then 1 else 0) + (if p.stopLoss.Some? then 1 else 0)
  }

  function MissingLegs(requested: Protection, accepted: Protection): seq<LegName> {
    (if requested.takeProfit.Some? && accepted.takeProfit.None? then [TakeProfit] else []) +
    (if requested.stopLoss.Some? && accepted.stopLoss.None? then [StopLoss] else [])
  }

  function ProtectionState(requested: Protection, accepted: Protection): ProtectionStatus {
    if LegCount(requested) == 0 then NotRequested
    else if LegCount(accepted) >= LegCount(requested) then Armed
    else if LegCount(accepted) > 0 then Partial
    else Refused
  }

  /** The legs among the first `n` of LEG_ORDER that `p` holds. */
  function LegsUpTo(p: Protection, n: nat): Legs
    requires n <= 2
  {
    if n == 0 then []
    else LegsUpTo(p, n - 1) + (match p.Get(LEG_ORDER[n - 1]) case None => [] case Some(l) => [(LEG_ORDER[n - 1], l)])
  }

  /** The active legs the adapter can address; a leg recorded without an id is skipped. */
  function Identified(p: Protection): Protection {
    Protection(if p.stopLoss.Some? && p.stopLoss.value.orderId.Some? then p.stopLoss else None,
               if p.takeProfit.Some? && p.takeProfit.value.orderId.Some? then p.takeProfit else None)
  }

  // ------------------------------------------------------------ the first two passes

  /** What the adapter knows of a placed order: its slot, when the venue named it. */
  datatype Placed = Placed(name: LegName, leg: Leg, id: Option<nat>)

  datatype CancelRun = CancelRun(cancelled: Legs, ok: bool, book: Book, sent: nat)

  datatype PlaceRun = PlaceRun(created: seq<Placed>, accepted: Protection, ok: bool, book: Book, sent: nat)

  /** One leg of the first pass, as a function of how its request fares. */
  function CancelNext(before: CancelRun, name: LegName, leg: Option<Leg>, fates: nat -> Fate): CancelRun {
    if !before.ok || leg.None? || leg.value.orderId.None? then before
    else
      var id := leg.value.orderId.value;
      if fates(before.sent).succeeds && IsLive(before.book, id) then
        CancelRun(before.cancelled + [(name, leg.value)], true, before.book[id := None], before.sent + 1)
      else CancelRun(before.cancelled, false, before.book, before.sent + 1)
  }

  /** The cancellations of the first `n` legs. */
  function CancelPass(book: Book, sent: nat, active: Protection, fates: nat -> Fate, n: nat): CancelRun
    requires n <= 2
  {
    if n == 0 then CancelRun([], true, book, sent)
    else
      var name := LEG_ORDER[n - 1];
      CancelNext(CancelPass(book, sent, active, fates, n - 1), name, active.Get(name), fates)
  }

  /** One leg of the second pass; a leg whose order cannot be built is not sent. */
  function PlaceNext(before: PlaceRun, name: LegName, leg: Option<Leg>, build: Builder, fates: nat -> Fate): PlaceRun {
    if !before.ok || leg.None? then before
    else
      var order := build(name, leg.value);
      if order.None? then before.(ok := false)
      else if !fates(before.sent).succeeds then before.(ok := false, sent := before.sent + 1)
      else
        var id := if fates(before.sent).echoed then Some(|before.book|) else None;
        PlaceRun(before.created + [Placed(name, leg.value, id)], WithLeg(before.accepted, name, leg.value), true,
                 before.book + [order], before.sent + 1)
  }

  /** The placements of the first `n` legs. */
  function PlacePass(book: Book, sent: nat, requested: Protection, build: Builder, fates: nat -> Fate, n: nat): PlaceRun
    requires n <= 2
  {
    if n == 0 then PlaceRun([], Protection(None, None), true, book, sent)
    else
      var name := LEG_ORDER[n - 1];
      PlaceNext(PlacePass(book, sent, requested, build, fates, n - 1), name, requested.Get(name), build, fates)
  }

  function WithLeg(p: Protection, name: LegName, leg: Leg): Protection {
    if name == StopLoss then p.(stopLoss := Some(leg)) else p.(takeProfit := Some(leg))
  }

  /** First pass: cancel the identified old legs, stopping at the first refusal. */
  method CancelOld(venue: Venue, active: Protection) returns (cancelled: Legs, ok: bool)
    modifies venue
    ensures CancelPass(old(venue.book), old(venue.sent), active, venue.fates, 2)
            == CancelRun(cancelled, ok, venue.book, venue.sent)
  {
    cancelled := [];
    for i := 0 to |LEG_ORDER|
      invariant CancelPass(old(venue.book), old(venue.sent), active, venue.fates, i)
                == CancelRun(cancelled, true, venue.book, venue.sent)
    {
      var leg := active.Get(LEG_ORDER[i]);
      if leg.Some? && leg.value.orderId.Some? {
        var accepted := venue.Cancel(leg.value.orderId.value);
        if !accepted {
          assert CancelPass(old(venue.book), old(venue.sent), active, venue.fates, i + 1)
                 == CancelRun(cancelled, false, venue.book, venue.sent);
          return cancelled, false;
        }
        cancelled := cancelled + [(LEG_ORDER[i], leg.value)];
      }
    }
    ok := true;
  }

  /** Second pass: place the requested legs, stopping at the first failure. */
  method PlaceNew(venue: Venue, requested: Protection, build: Builder)
    returns (created: seq<Placed>, accepted: Protection, ok: bool)
    modifies venue
    ensures PlacePass(old(venue.book), old(venue.sent), requested, build, venue.fates, 2)
            == PlaceRun(created, accepted, ok, venue.book, venue.sent)
  {
    created, accepted := [], Protection(None, None);
    for i := 0 to |LEG_ORDER|
      invariant PlacePass(old(venue.book), old(venue.sent), requested, build, venue.fates, i)
                == PlaceRun(created, accepted, true, venue.book, venue.sent)
    {
      var name := LEG_ORDER[i];
      var leg := requested.Get(name);
      if leg.Some? {
        var order := build(name, leg.value);
        if order.None? {
          assert PlacePass(old(venue.book), old(venue.sent), requested, build, venue.fates, i + 1)
                 == PlaceRun(created, accepted, false, venue.book, venue.sent);
          return created, accepted, false;
        }
        var placed, id := venue.Place(order.value);
        if !placed {
          assert PlacePass(old(venue.book), old(venue.sent), requested, build, venue.fates, i + 1)
                 == PlaceRun(created, accepted, false, venue.book, venue.sent);
          return created, accepted, false;
        }
        created := created + [Placed(name, leg.value, id)];
        accepted := WithLeg(accepted, name, leg.value);
      }
    }
    ok := true;
  }

  // ------------------------------------------------------------ compensation

  datatype UndoRun = UndoRun(undone: seq<Placed>, stuck: seq<Placed>, book: Book, sent: nat)

  datatype RecreateRun = RecreateRun(recreated: Legs, lost: Legs, book: Book, sent: nat)

  /** Withdrawing one replacement. An order the venue never named cannot be addressed. */
  function UndoNext(before: UndoRun, p: Placed, fates: nat -> Fate): UndoRun {
    if p.id.None? then before.(stuck := before.stuck + [p])
    else if fates(before.sent).succeeds && IsLive(before.book, p.id.value) then
      UndoRun(before.undone + [p], before.stuck, before.book[p.id.value := None], before.sent + 1)
    else before.(stuck := before.stuck + [p], sent := before.sent + 1)
  }

  function UndoPass(book: Book, sent: nat, created: seq<Placed>, fates: nat -> Fate, n: nat): UndoRun
    requires n <= |created|
  {
    if n == 0 then UndoRun([], [], book, sent)
    else UndoNext(UndoPass(book, sent, created, fates, n - 1), created[n - 1], fates)
  }

  /** Placing one cancelled leg again, from its own record. */
  function RecreateNext(before: RecreateRun, leg: (LegName, Leg), build: Builder, fates: nat -> Fate): RecreateRun {
    var order := build(leg.0, leg.1);
    if order.None? then before.(lost := before.lost + [leg])
    else if fates(before.sent).succeeds then
      RecreateRun(before.recreated + [leg], before.lost, before.book + [order], before.sent + 1)
    else before.(lost := before.lost + [leg], sent := before.sent + 1)
  }

  function RecreatePass(book: Book, sent: nat, cancelled: Legs, build: Builder, fates: nat -> Fate, n: nat): RecreateRun
    requires n <= |cancelled|
  {
    if n == 0 then RecreateRun([], [], book, sent)
    else RecreateNext(RecreatePass(book, sent, cancelled, build, fates, n - 1), cancelled[n - 1], build, fates)
  }

  function UndoErrors(n: nat): seq<RollbackError> {
    if n == 0 then [] else UndoErrors(n - 1) + [CancelReplacement]
  }

  function LostErrors(lost: Legs): seq<RollbackError> {
    if lost == [] then [] else LostErrors(lost[..|lost| - 1]) + [RecreateOriginal(lost[|lost| - 1].0)]
  }

  lemma LostErrorsSnoc(lost: Legs, leg: (LegName, Leg))
    ensures LostErrors(lost + [leg]) == LostErrors(lost) + [RecreateOriginal(leg.0)]
  {
    assert (lost + [leg])[..|lost|] == lost;
  }

  /** A failed withdrawal counts as an error, a missing id like a refusal. */
  method UndoCreated(venue: Venue, created: seq<Placed>) returns (undone: seq<Placed>, errors: seq<RollbackError>)
    modifies venue
    ensures var r := UndoPass(old(venue.book), old(venue.sent), created, venue.fates, |created|);
            undone == r.undone && errors == UndoErrors(|r.stuck|) && venue.book == r.book && venue.sent == r.sent
  {
    undone, errors := [], [];
    ghost var r := UndoRun([], [], venue.book, venue.sent);
    for i := 0 to |created|
      invariant r == UndoPass(old(venue.book), old(venue.sent), created, venue.fates, i)
      invariant undone == r.undone && errors == UndoErrors(|r.stuck|)
      invariant venue.book == r.book && venue.sent == r.sent
    {
      r := UndoNext(r, created[i], venue.fates);
      var cancelled := false;
      if created[i].id.Some? {
        cancelled := venue.Cancel(created[i].id.value);
      }
      if cancelled {
        undone := undone + [created[i]];
      } else {
        errors := errors + [CancelReplacement];
      }
    }
  }

  /** One leg placed again; a leg whose parameters cannot be built is not sent at all. */
  method RecreateOne(venue: Venue, leg: (LegName, Leg), build: Builder, ghost r: RecreateRun) returns (placed: bool)
    requires venue.book == r.book && venue.sent == r.sent
    modifies venue
    ensures placed ==> build(leg.0, leg.1).Some?
    ensures var next := RecreateNext(r, leg, build, venue.fates);
            && next == RecreateRun(if placed then r.recreated + [leg] else r.recreated,
                                   if placed then r.lost else r.lost + [leg], venue.book, venue.sent)
  {
    placed := false;
    var order := build(leg.0, leg.1);
    if order.Some? {
      var id;
      placed, id := venue.Place(order.value);
    }
  }

  method RecreateCancelled(venue: Venue, cancelled: Legs, build: Builder)
    returns (recreated: Legs, errors: seq<RollbackError>)
    modifies venue
    ensures var r := RecreatePass(old(venue.book), old(venue.sent), cancelled, build, venue.fates, |cancelled|);
            recreated == r.recreated && errors == LostErrors(r.lost) && venue.book == r.book && venue.sent == r.sent
  {
    recreated, errors := [], [];
    ghost var lost: Legs := [];
    for i := 0 to |cancelled|
      invariant RecreatePass(old(venue.book), old(venue.sent), cancelled, build, venue.fates, i)
                == RecreateRun(recreated, lost, venue.book, venue.sent)
      invariant errors == LostErrors(lost)
    {
      ghost var r := RecreateRun(recreated, lost, venue.book, venue.sent);
      LostErrorsSnoc(lost, cancelled[i]);
      var placed := RecreateOne(venue, cancelled[i], build, r);
      if placed {
        recreated := recreated + [cancelled[i]];
      } else {
        errors := errors + [RecreateOriginal(cancelled[i].0)];
        lost := lost + [cancelled[i]];
      }
    }
  }

  function LegsOf(created: seq<Placed>): (legs: Legs)
    ensures |legs| == |created|
  {
    if created == [] then []
    else LegsOf(created[..|created| - 1]) + [(created[|created| - 1].name, created[|created| - 1].leg)]
  }

  // ------------------------------------------------------------ the whole amendment

  function RollbackRun(cancelled: Legs, created: seq<Placed>, book: Book, sent: nat, build: Builder,
                       fates: nat -> Fate): (Outcome, Book)
  {
    var u := UndoPass(book, sent, created, fates, |created|);
    var r := RecreatePass(u.book, u.sent, cancelled, build, fates, |cancelled|);
    var errors := UndoErrors(|u.stuck|) + LostErrors(r.lost);
    (RolledBack(cancelled, LegsOf(created), LegsOf(u.undone), r.recreated, errors, errors == []), r.book)
  }

  /** The saga, as a function of the book and of how the requests from number `sent` on fare. */
  function AmendRun(book: Book, sent: nat, active: Protection, requested: Protection, build: Builder,
                    fates: nat -> Fate): (Outcome, Book)
  {
    var c := CancelPass(book, sent, active, fates, 2);
    if !c.ok then RollbackRun(c.cancelled, [], c.book, c.sent, build, fates)
    else
      var p := PlacePass(c.book, c.sent, requested, build, fates, 2);
      if !p.ok then RollbackRun(c.cancelled, p.created, p.book, p.sent, build, fates)
      else (Replaced(c.cancelled, LegsOf(p.created), ProtectionState(requested, p.accepted),
                     MissingLegs(requested, p.accepted)), p.book)
  }

  /** Compensation, in the adapter's order: withdraw what was placed, then place what was cancelled. */
  method Rollback(venue: Venue, cancelled: Legs, created: seq<Placed>, build: Builder) returns (o: Outcome)
    modifies venue
    ensures (o, venue.book)
            == RollbackRun(cancelled, created, old(venue.book), old(venue.sent), build, venue.fates)
  {
    var undone, undoErrors := UndoCreated(venue, created);
    var recreated, recreateErrors := RecreateCancelled(venue, cancelled, build);
    var errors := undoErrors + recreateErrors;
    o := RolledBack(cancelled, LegsOf(created), LegsOf(undone), recreated, errors, errors == []);
  }

  method Amend(venue: Venue, active: Protection, requested: Protection, build: Builder) returns (o: Outcome)
    modifies venue
    ensures (o, venue.book)
            == AmendRun(old(venue.book), old(venue.sent), active, requested, build, venue.fates)
  {
    var cancelled, ok := CancelOld(venue, active);
    if !ok {
      o := Rollback(venue, cancelled, [], build);
      return;
    }
    var created, accepted, placedAll := PlaceNew(venue, requested, build);
    if !placedAll {
      o := Rollback(venue, cancelled, created, build);
      return;
    }
    o := Replaced(cancelled, LegsOf(created), ProtectionState(requested, accepted), MissingLegs(requested, accepted));
  }
}
