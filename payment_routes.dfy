/** The card-payment routes: a five-minute hold taken only from `available`,
    a payment intent created only under a live hold, the gateway outcome that
    either sells or releases the product, release by reservation id, and the
    periodic sweep. The payment intents and their orders are kept in the
    record shape these handlers write. */
module Gateway {
  import opened Common
  import opened Products

  /** The hold this route takes: five minutes. */
  const HoldMs: int := 5 * MinuteMs

  datatype Reply =
    | ProductNotFound
    | HeldElsewhere(secondsLeft: int, reservedUntil: Option<int>)
    | SoldOut
    | HoldTaken(reservationId: string, until: int)
    | ReservationInvalid
    | IntentCreated(intentId: string, orderDocId: string, amount: int)
    | PaymentNotFound
    | ReservationLost
    | PaymentConfirmed(transactionId: string)
    | PaymentDeclined
    | ServerError
    | Released
    | ReservationNotFound

  // ---------------------------------------------------------------------------
  // The records the handlers write

  /** `status` as the handlers set it on a payment intent. */
  datatype IntentStatus = IntentPending | IntentCompleted | IntentFailed

  /** A payment intent: its `_id`, owner, the `_id` of its order, the amount,
      the reservation id it was created under, the product id from the request
      (kept in `paymentDetails.productId`), status and transaction id. */
  datatype Intent = Intent(
    id: string, userId: UserId, orderDocId: string, amount: int,
    reservationId: string, productRef: string, status: IntentStatus,
    transactionId: Option<string>)

  datatype IntentOrderStatus = PendingPayment | OrderConfirmed

  /** The order created with an intent: one product line, and whether it is
      paid. */
  datatype IntentOrder = IntentOrder(
    id: string, user: UserId, productRef: string, price: int, name: string,
    status: IntentOrderStatus, paid: bool)

  predicate DistinctIntents(a: Intent, b: Intent) { a.id != b.id }
  predicate DistinctOrders(a: IntentOrder, b: IntentOrder) { a.id != b.id }

  /** `_id` is unique in both collections. */
  predicate ValidLedger(intents: seq<Intent>, orders: seq<IntentOrder>) {
    (forall i, j {:trigger DistinctIntents(intents[i], intents[j])} :: 0 <= i < j < |intents| ==>
       DistinctIntents(intents[i], intents[j]))
    && (forall i, j {:trigger DistinctOrders(orders[i], orders[j])} :: 0 <= i < j < |orders| ==>
          DistinctOrders(orders[i], orders[j]))
  }

  /** `Payment.findOne({ _id, userId, status: 'pending' })`. */
  function FindPendingIntent(intents: seq<Intent>, id: string, user: UserId): (r: Option<nat>)
    ensures r.Some? ==> r.value < |intents| && intents[r.value].id == id
                        && intents[r.value].userId == user && intents[r.value].status == IntentPending
    ensures r.None? <==> forall j :: 0 <= j < |intents| ==>
              !(intents[j].id == id && intents[j].userId == user && intents[j].status == IntentPending)
  {
    IndexWhere(intents, (x: Intent) => x.id == id && x.userId == user && x.status == IntentPending)
  }

  /** `Order.findById(id)`. */
  function FindIntentOrder(orders: seq<IntentOrder>, id: string): (r: Option<nat>)
    ensures r.Some? ==> r.value < |orders| && orders[r.value].id == id
    ensures r.None? <==> forall j :: 0 <= j < |orders| ==> orders[j].id != id
  {
    IndexWhere(orders, (o: IntentOrder) => o.id == id)
  }

  /** The intents and their orders. */
  class Ledger {
    var intents: seq<Intent>
    var orders: seq<IntentOrder>

    ghost predicate Valid()
      reads this
    {
      ValidLedger(intents, orders)
    }

    constructor ()
      ensures intents == [] && orders == [] && Valid()
    {
      intents, orders := [], [];
    }

    /** `order.save()` then `payment.save()` for a new pair. */
    method Open(o: IntentOrder, x: Intent)
      requires Valid()
      requires forall j :: 0 <= j < |orders| ==> orders[j].id != o.id
      requires forall j :: 0 <= j < |intents| ==> intents[j].id != x.id
      modifies this
      ensures Valid() && orders == old(orders) + [o] && intents == old(intents) + [x]
    {
      orders := orders + [o];
      intents := intents + [x];
    }

    /** `payment.save()` of the loaded intent at position `k`. */
    method SaveIntent(k: nat, x: Intent)
      requires Valid() && k < |intents| && x.id == intents[k].id
      modifies this
      ensures Valid() && intents == old(intents)[k := x] && orders == old(orders)
    {
      var updated := intents[k := x];
      forall a, b | 0 <= a < b < |updated|
        ensures DistinctIntents(updated[a], updated[b])
      {
        assert DistinctIntents(intents[a], intents[b]);
      }
      intents := updated;
    }

    /** `order.save()` of the loaded order at position `k`. */
    method SaveOrder(k: nat, o: IntentOrder)
      requires Valid() && k < |orders| && o.id == orders[k].id
      modifies this
      ensures Valid() && orders == old(orders)[k := o] && intents == old(intents)
    {
      var updated := orders[k := o];
      forall a, b | 0 <= a < b < |updated|
        ensures DistinctOrders(updated[a], updated[b])
      {
        assert DistinctOrders(orders[a], orders[b]);
      }
      orders := updated;
    }
  }

  // ---------------------------------------------------------------------------
  // POST /reserve

  /** What POST /reserve decides from the record `findById` returns: only an
      available product is held; a reserved one is refused with the seconds
      left (zero once lapsed, and with no deadline `null` counts as instant
      zero); anything else is sold out. */
  function ReserveReply(docs: seq<Product>, productId: string, now: int, reservationId: string): (r: Reply)
    ensures r.HoldTaken? ==> r.until == now + HoldMs && r.reservationId == reservationId
  {
    match FindByIdText(docs, productId)
    case None => ProductNotFound
    case Some(i) =>
      var p := docs[i];
      if p.status != Available then
        if p.status == Reserved then
          var until := if p.reservedUntil.Some? then p.reservedUntil.value else 0;
          HeldElsewhere(CeilDiv(NonNeg(until - now), 1000), p.reservedUntil)
        else SoldOut
      else HoldTaken(reservationId, now + HoldMs)
  }

  /** The hold is taken exactly when the product is found and available; the
      refusals are told apart by status, and a refused reservation reports a
      non-negative wait. */
  lemma ReserveReplyCases(docs: seq<Product>, productId: string, now: int, reservationId: string)
    ensures var r := ReserveReply(docs, productId, now, reservationId);
            var f := FindByIdText(docs, productId);
            (r.HoldTaken? <==> f.Some? && docs[f.value].status == Available)
            && (r == ProductNotFound <==> f.None?)
            && (r.HeldElsewhere? <==> f.Some? && docs[f.value].status == Reserved)
            && (r == SoldOut <==> f.Some? && (docs[f.value].status == Sold || docs[f.value].status == OutOfStock))
            && (r.HeldElsewhere? ==> r.secondsLeft >= 0)
            && (r.HeldElsewhere? && IsReservedAt(docs[f.value], now) ==> r.secondsLeft >= 1)
  {
  }

  /** POST /reserve: an available product is saved as reserved for five
      minutes under the fresh reservation id, with its holder untouched;
      every refusal leaves the store as it was. */
  method Reserve(products: ProductCollection, productId: string, now: int, reservationId: string)
    returns (reply: Reply)
    requires products.Valid()
    modifies products
    ensures products.Valid()
    ensures reply == ReserveReply(old(products.docs), productId, now, reservationId)
    ensures !reply.HoldTaken? ==> products.docs == old(products.docs)
    ensures reply.HoldTaken? ==>
              var i := FindByIdText(old(products.docs), productId).value;
              products.docs == old(products.docs)[i := PreSave(Apply(old(products.docs)[i],
                                 ReservePatch(now + HoldMs, reservationId, KeepHolder)), false)]
  {
    reply := ReserveReply(products.docs, productId, now, reservationId);
    if reply.HoldTaken? {
      var i := FindByIdText(products.docs, productId).value;
      var held := SaveFields(products, i, ReservePatch(now + HoldMs, reservationId, KeepHolder));
    }
  }

  /** A hold taken at `now` is live at `now` and lapses exactly five minutes
      later. */
  lemma HoldLastsFiveMinutes(p: Product, now: int, reservationId: string, later: int)
    ensures var q := PreSave(Apply(p, ReservePatch(now + HoldMs, reservationId, KeepHolder)), false);
            IsReservedAt(q, now) && (IsReservedAt(q, later) <==> later < now + 5 * 60 * 1000)
            && !q.isAvailable && q.reservedBy == p.reservedBy
  {
  }

  // ---------------------------------------------------------------------------
  // POST /create

  /** The filter of POST /create: the product's `_id`, the reservation id, the
      status `reserved` and a deadline still in the future. */
  predicate LiveHold(p: Product, reservationId: string, now: int) {
    p.reservationId == Some(reservationId) && p.status == Reserved
    && p.reservedUntil.Some? && p.reservedUntil.value > now
  }

  /** `Product.findOne({ _id, reservationId, inventoryStatus: 'reserved',
      reservedUntil: { $gt: now } })`. */
  function FindLiveHold(docs: seq<Product>, productId: string, reservationId: string, now: int): (r: Option<nat>)
    ensures r.Some? ==> r.value < |docs| && LiveHold(docs[r.value], reservationId, now)
  {
    match FindByIdText(docs, productId)
    case None => None
    case Some(i) => if LiveHold(docs[i], reservationId, now) then Some(i) else None
  }

  /** In a valid store the combined filter finds the product exactly when the
      record with that `_id` is held under this id and its deadline is still
      ahead, which is the `isReserved` virtual plus the matching id. */
  lemma FindLiveHoldIsFilter(docs: seq<Product>, productId: string, reservationId: string, now: int)
    requires ValidDocs(docs)
    ensures var r := FindLiveHold(docs, productId, reservationId, now);
            r.Some? <==> exists j :: 0 <= j < |docs| && IsObjectIdHex(productId)
                                     && docs[j].id == NativeId(ToLowerAscii(productId))
                                     && LiveHold(docs[j], reservationId, now)
    ensures forall p: Product :: LiveHold(p, reservationId, now) <==>
              IsReservedAt(p, now) && p.reservationId == Some(reservationId)
  {
    var r := FindLiveHold(docs, productId, reservationId, now);
    if r.None? && IsObjectIdHex(productId) {
      forall j | 0 <= j < |docs| && docs[j].id == NativeId(ToLowerAscii(productId))
        ensures !LiveHold(docs[j], reservationId, now)
      {
        FindFirstUnique(docs, j);
      }
    }
  }

  /** POST /create: without a live hold under the given id the request is
      refused and nothing is written; otherwise a pending-payment order for
      the product's price and a pending intent pointing at it are created
      together. The product itself is not touched. */
  method Create(products: ProductCollection, ledger: Ledger, productId: string, reservationId: string,
                user: UserId, now: int, orderDocId: string, intentId: string) returns (reply: Reply)
    requires products.Valid() && ledger.Valid()
    requires forall j :: 0 <= j < |ledger.orders| ==> ledger.orders[j].id != orderDocId
    requires forall j :: 0 <= j < |ledger.intents| ==> ledger.intents[j].id != intentId
    modifies ledger
    ensures ledger.Valid()
    ensures match FindLiveHold(products.docs, productId, reservationId, now)
            case None =>
              reply == ReservationInvalid
              && ledger.intents == old(ledger.intents) && ledger.orders == old(ledger.orders)
            case Some(i) =>
              var p := products.docs[i];
              reply == IntentCreated(intentId, orderDocId, p.price)
              && ledger.orders == old(ledger.orders)
                   + [IntentOrder(orderDocId, user, productId, p.price, p.name, PendingPayment, false)]
              && ledger.intents == old(ledger.intents)
                   + [Intent(intentId, user, orderDocId, p.price, reservationId, productId, IntentPending, None)]
  {
    var found := FindLiveHold(products.docs, productId, reservationId, now);
    if found.None? {
      return ReservationInvalid;
    }
    var p := products.docs[found.value];
    ledger.Open(IntentOrder(orderDocId, user, productId, p.price, p.name, PendingPayment, false),
                Intent(intentId, user, orderDocId, p.price, reservationId, productId, IntentPending, None));
    reply := IntentCreated(intentId, orderDocId, p.price);
  }

  // ---------------------------------------------------------------------------
  // POST /confirm

  /** The product filter of POST /confirm: the intent's product, held under
      the reservation id from the request. The deadline is not consulted. */
  predicate HeldUnder(p: Product, reservationId: string) {
    p.reservationId == Some(reservationId) && p.status == Reserved
  }

  function FindHeldProduct(docs: seq<Product>, productId: string, reservationId: string): (r: Option<nat>)
    ensures r.Some? ==> r.value < |docs| && HeldUnder(docs[r.value], reservationId)
  {
    match FindByIdText(docs, productId)
    case None => None
    case Some(i) => if HeldUnder(docs[i], reservationId) then Some(i) else None
  }

  /** Confirmation still goes ahead on a hold whose deadline has passed, as
      long as nothing has released it. */
  lemma ConfirmIgnoresDeadline(docs: seq<Product>, productId: string, reservationId: string, now: int)
    requires ValidDocs(docs)
    requires var f := FindByIdText(docs, productId);
             f.Some? && docs[f.value].reservationId == Some(reservationId)
             && IsReservationExpiredAt(docs[f.value], now)
    ensures FindHeldProduct(docs, productId, reservationId).Some?
    ensures FindLiveHold(docs, productId, reservationId, now).None?
  {
  }

  /** POST /confirm, with the gateway's verdict as `approved`. The caller's
      pending intent and the product held under the given id are required.
      Approved: the product is saved as sold, the intent completed with the
      transaction id, and its order confirmed and paid; an intent whose order
      is gone makes the handler fail and the transaction undo every write.
      Declined: the product is saved as available and the intent failed. */
  method Confirm(products: ProductCollection, ledger: Ledger, intentId: string, reservationId: string,
                 user: UserId, approved: bool, transactionId: string) returns (reply: Reply)
    requires products.Valid() && ledger.Valid()
    modifies products, ledger
    ensures products.Valid() && ledger.Valid()
    ensures match FindPendingIntent(old(ledger.intents), intentId, user)
            case None =>
              reply == PaymentNotFound && products.docs == old(products.docs)
              && ledger.intents == old(ledger.intents) && ledger.orders == old(ledger.orders)
            case Some(k) =>
              var x := old(ledger.intents)[k];
              match FindHeldProduct(old(products.docs), x.productRef, reservationId)
              case None =>
                reply == ReservationLost && products.docs == old(products.docs)
                && ledger.intents == old(ledger.intents) && ledger.orders == old(ledger.orders)
              case Some(i) =>
                var p := old(products.docs)[i];
                if !approved then
                  reply == PaymentDeclined
                  && products.docs == old(products.docs)[i := PreSave(Apply(p, ReleasePatch(false)), false)]
                  && ledger.intents == old(ledger.intents)[k := x.(status := IntentFailed)]
                  && ledger.orders == old(ledger.orders)
                else
                  match FindIntentOrder(old(ledger.orders), x.orderDocId)
                  case None =>
                    reply == ServerError && products.docs == old(products.docs)
                    && ledger.intents == old(ledger.intents) && ledger.orders == old(ledger.orders)
                  case Some(m) =>
                    reply == PaymentConfirmed(transactionId)
                    && products.docs == old(products.docs)[i := PreSave(Apply(p, SoldPatch(false)), false)]
                    && ledger.intents == old(ledger.intents)[k := x.(status := IntentCompleted,
                                                                    transactionId := Some(transactionId))]
                    && ledger.orders == old(ledger.orders)[m := old(ledger.orders)[m].(status := OrderConfirmed,
                                                                                     paid := true)]
  {
    var found := FindPendingIntent(ledger.intents, intentId, user);
    if found.None? {
      return PaymentNotFound;
    }
    var k := found.value;
    var x := ledger.intents[k];
    var held := FindHeldProduct(products.docs, x.productRef, reservationId);
    if held.None? {
      return ReservationLost;
    }
    var i := held.value;
    if !approved {
      var released := SaveFields(products, i, ReleasePatch(false));
      ledger.SaveIntent(k, x.(status := IntentFailed));
      return PaymentDeclined;
    }
    // The order is loaded after the two saves; when it is missing the handler
    // throws and the transaction undoes both saves, so the lookup comes first.
    var order := FindIntentOrder(ledger.orders, x.orderDocId);
    if order.None? {
      return ServerError;
    }
    var sold := SaveFields(products, i, SoldPatch(false));
    ledger.SaveIntent(k, x.(status := IntentCompleted, transactionId := Some(transactionId)));
    var m := order.value;
    ledger.SaveOrder(m, ledger.orders[m].(status := OrderConfirmed, paid := true));
    reply := PaymentConfirmed(transactionId);
  }

  /** Either way the gateway answers, the hold is gone afterwards: the product
      is sold or available, with no deadline and no reservation id. */
  lemma ConfirmEndsHold(p: Product, reservationId: string, approved: bool)
    requires HeldUnder(p, reservationId)
    ensures var q := PreSave(Apply(p, if approved then SoldPatch(false) else ReleasePatch(false)), false);
            (q.status == Sold <==> approved) && (q.status == Available <==> !approved)
            && q.reservedUntil.None? && q.reservationId.None? && (q.isAvailable <==> !approved)
            && q.reservedBy == p.reservedBy
  {
  }

  // ---------------------------------------------------------------------------
  // POST /release

  /** `Product.findOne({ reservationId, inventoryStatus: 'reserved' })`: the
      first record, in natural order, held under this id. */
  function FindByReservation(docs: seq<Product>, reservationId: string): (r: Option<nat>)
    ensures r.Some? ==> r.value < |docs| && HeldUnder(docs[r.value], reservationId)
    ensures r.None? <==> forall j :: 0 <= j < |docs| ==> !HeldUnder(docs[j], reservationId)
  {
    IndexWhere(docs, (p: Product) => HeldUnder(p, reservationId))
  }

  /** POST /release: the first product held under the id is saved as
      available, with its holder kept; without one the answer is 404 and
      nothing changes. Whoever presents the id may release it. */
  method Release(products: ProductCollection, reservationId: string) returns (reply: Reply)
    requires products.Valid()
    modifies products
    ensures products.Valid()
    ensures match FindByReservation(old(products.docs), reservationId)
            case None => reply == ReservationNotFound && products.docs == old(products.docs)
            case Some(i) =>
              reply == Released
              && products.docs == old(products.docs)[i := PreSave(Apply(old(products.docs)[i], ReleasePatch(false)), false)]
  {
    var found := FindByReservation(products.docs, reservationId);
    if found.None? {
      return ReservationNotFound;
    }
    var released := SaveFields(products, found.value, ReleasePatch(false));
    reply := Released;
  }

  /** Release writes at most one record, and only one held under the id: any
      record that was not held under it is unchanged. */
  lemma ReleaseTouchesOnlyThatHold(docs: seq<Product>, reservationId: string, j: nat)
    requires j < |docs| && !HeldUnder(docs[j], reservationId)
    ensures var f := FindByReservation(docs, reservationId);
            f.None? || f.value != j
  {
  }

  // ---------------------------------------------------------------------------
  // POST /cleanup-expired

  /** POST /cleanup-expired: every reserved record whose deadline is strictly
      before `now` is made available with deadline and reservation id cleared
      (the holder is kept); the reply counts exactly those records. */
  method CleanupExpired(products: ProductCollection, now: int) returns (released: nat)
    requires products.Valid()
    modifies products
    ensures products.Valid()
    ensures products.docs == Sweep(old(products.docs), now, false)
    ensures released == CountDue(old(products.docs), now)
    ensures forall j :: 0 <= j < |products.docs| ==>
              (products.docs[j] != old(products.docs)[j] <==> SweepDue(old(products.docs)[j], now))
  {
    ghost var before := products.docs;
    released := products.ReleaseLapsed(now, false);
    forall j | 0 <= j < |products.docs|
      ensures products.docs[j] != before[j] <==> SweepDue(before[j], now)
    {
      SweepEffect(before, now, false, j);
    }
  }
}
