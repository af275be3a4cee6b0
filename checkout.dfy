/** The checkout flow over orders: the availability gate in front of buy-now,
    buy-now and cart checkout (each one transaction that reserves the items
    and records a reserved order), and the confirm and cancel steps that
    overwrite every item of an order. */
module Checkout {
  import opened Common
  import opened Products
  import opened Orders
  import opened Carts

  /** `RESERVATION_DURATION`: fifteen minutes. */
  const ReservationMs: int := 15 * MinuteMs

  /** What a checkout handler answers, by kind. */
  datatype Reply =
    | ProductNotFound
    | AlreadySold
    | CurrentlyReserved(secondsLeft: int, until: int)
    | AddressRequired
    | CartIsEmpty
    | CartItemNotFound(line: nat)
    | CartItemUnavailable(line: nat, status: Status)
    | OrderCreated(orderId: string, totalAmount: int, itemCount: nat, expiresAt: int)
    | TransactionIdRequired
    | ReservedOrderNotFound
    | ReservationExpired
    | PaymentConfirmed(orderId: string)
    | ReservationCancelled(orderId: string)
    | ServerError

  // ---------------------------------------------------------------------------
  // checkProductAvailability

  datatype Availability = Passes(i: nat) | Refused(reply: Reply)

  /** The middleware: a missing product, a sold one, or one reserved with time
      left (by anybody) is refused; everything else passes, including a lapsed
      reservation and an out-of-stock record. */
  function CheckAvailability(docs: seq<Product>, productId: string, now: int): (r: Availability)
    ensures r.Passes? ==> r.i < |docs|
  {
    match FindByIdOrProductId(docs, productId)
    case None => Refused(ProductNotFound)
    case Some(i) =>
      var p := docs[i];
      if p.status == Status.Sold then Refused(AlreadySold)
      else if p.status == Status.Reserved && p.reservedUntil.Some? && p.reservedUntil.value - now > 0 then
        Refused(CurrentlyReserved(CeilDiv(p.reservedUntil.value - now, 1000), p.reservedUntil.value))
      else Passes(i)
  }

  /** The middleware's answer in terms of the record and the `isReserved` and
      `isReservationExpired` virtuals. */
  lemma AvailabilityCases(docs: seq<Product>, productId: string, now: int)
    ensures var r := CheckAvailability(docs, productId, now);
            var f := FindByIdOrProductId(docs, productId);
            (r == Refused(ProductNotFound) <==> f.None?)
            && (r == Refused(AlreadySold) <==> f.Some? && docs[f.value].status == Status.Sold)
            && (r.Refused? && r.reply.CurrentlyReserved? <==> f.Some? && IsReservedAt(docs[f.value], now))
            && (r.Refused? && r.reply.CurrentlyReserved? ==>
                  r.reply.secondsLeft >= 1 && r.reply.until == docs[f.value].reservedUntil.value)
            && (f.Some? && IsReservationExpiredAt(docs[f.value], now) ==> r == Passes(f.value))
            && (r.Passes? <==> f.Some? && docs[f.value].status != Status.Sold && !IsReservedAt(docs[f.value], now))
  {
  }

  // ---------------------------------------------------------------------------
  // Records written by checkout

  /** The checkout reservation of one product, through `product.save()`: the
      status, deadline and shared reservation id are set, the holder is left
      as it was, and the pre-save hook clears `isAvailable`. */
  function CheckoutHold(p: Product, expires: int, reservationId: string): (r: Product)
    ensures r.status == Status.Reserved && r.reservedUntil == Some(expires) && r.reservationId == Some(reservationId)
    ensures r.reservedBy == p.reservedBy && !r.isAvailable
    ensures r.id == p.id && r.productId == p.productId && r.name == p.name && r.price == p.price
  {
    PreSave(Apply(p, ReservePatch(expires, reservationId, KeepHolder)), false)
  }

  /** The order line for a product: quantity one at the product's price. */
  function LineFor(p: Product): (it: OrderItem)
    ensures it.product == p.id && it.quantity == 1 && it.price == p.price
  {
    OrderItem(p.id, p.productId, p.name, p.price, 1)
  }

  /** The reserved order both checkout handlers create. */
  function ReservedOrder(docId: string, orderId: string, user: UserId, items: seq<OrderItem>, total: int,
                         customer: CustomerInfo, expires: int, reservationId: string): (o: Order)
    ensures o.status == OrderStatus.Reserved && o.paymentStatus == PaymentPending
    ensures o.items == items && o.totalAmount == total && o.reservationExpiresAt == expires
    ensures o.reservationId == reservationId && o.user == user && o.orderId == orderId
  {
    Order(docId, orderId, user, items, total, OrderStatus.Reserved, customer, PaymentPending, None, None, expires, reservationId)
  }

  /** A buy-now order saves exactly when the ids are set, the address is
      complete, and the product has an ObjectId `_id` and a name: a product
      with a custom `_id` can never be bought this way. */
  lemma BuyNowOrderSaves(p: Product, docId: string, orderId: string, user: UserId,
                         customer: CustomerInfo, expires: int, reservationId: string)
    requires p.productId != ""
    ensures PassesValidation(ReservedOrder(docId, orderId, user, [LineFor(p)], p.price, customer, expires, reservationId))
            <==> orderId != "" && reservationId != "" && CustomerComplete(customer)
                 && p.id.NativeId? && p.name != ""
  {
    var o := ReservedOrder(docId, orderId, user, [LineFor(p)], p.price, customer, expires, reservationId);
    assert o.items[0] == LineFor(p);
  }

  // ---------------------------------------------------------------------------
  // POST /buy-now

  /** POST /buy-now: the availability gate, then the address check, then in one
      transaction the product is reserved and the order saved; a failing save
      aborts the transaction and leaves both stores as they were. */
  method BuyNow(products: ProductCollection, orders: OrderCollection, productId: string,
                customer: CustomerInfo, user: UserId, now: int,
                reservationId: string, orderDocId: string, orderId: string) returns (reply: Reply)
    requires products.Valid() && orders.Valid() && FreshId(orders.docs, orderDocId)
    modifies products, orders
    ensures products.Valid() && orders.Valid()
    ensures match CheckAvailability(old(products.docs), productId, now)
            case Refused(r) =>
              reply == r && products.docs == old(products.docs) && orders.docs == old(orders.docs)
            case Passes(i) =>
              var held := CheckoutHold(old(products.docs)[i], now + ReservationMs, reservationId);
              var order := ReservedOrder(orderDocId, orderId, user, [LineFor(held)], held.price, customer,
                                         now + ReservationMs, reservationId);
              if !CustomerComplete(customer) then
                reply == AddressRequired && products.docs == old(products.docs) && orders.docs == old(orders.docs)
              else if PassesValidation(order) && FreshOrderId(old(orders.docs), orderId) then
                reply == OrderCreated(orderId, held.price, 1, now + ReservationMs)
                && products.docs == old(products.docs)[i := held] && orders.docs == old(orders.docs) + [order]
              else
                reply == ServerError && products.docs == old(products.docs) && orders.docs == old(orders.docs)
  {
    var gate := CheckAvailability(products.docs, productId, now);
    if gate.Refused? {
      return gate.reply;
    }
    if !CustomerComplete(customer) {
      return AddressRequired;
    }
    var expires := now + ReservationMs;
    var snapshot := products.docs;
    var held := SaveFields(products, gate.i, ReservePatch(expires, reservationId, KeepHolder));
    var order := ReservedOrder(orderDocId, orderId, user, [LineFor(held)], held.price, customer,
                               expires, reservationId);
    var saved := PlaceOrder(products, orders, snapshot, order);
    reply := if saved then OrderCreated(orderId, held.price, 1, expires) else ServerError;
  }

  /** `order.save()` and the commit: a failing save aborts the transaction,
      which puts the products back as they were in `snapshot`. */
  method PlaceOrder(products: ProductCollection, orders: OrderCollection, snapshot: seq<Product>, order: Order)
    returns (saved: bool)
    requires products.Valid() && orders.Valid() && ValidDocs(snapshot) && FreshId(orders.docs, order.id)
    modifies products, orders
    ensures products.Valid() && orders.Valid()
    ensures saved == (PassesValidation(order) && FreshOrderId(old(orders.docs), order.orderId))
    ensures saved ==> products.docs == old(products.docs) && orders.docs == old(orders.docs) + [order]
    ensures !saved ==> products.docs == snapshot && orders.docs == old(orders.docs)
  {
    saved := orders.Insert(order);
    if !saved {
      products.Restore(snapshot);
    }
  }

  // ---------------------------------------------------------------------------
  // POST /cart

  /** Where the cart loop stands: the store, the order lines and the running
      total so far, or the refusal that aborted it. */
  datatype CartPass = Pass(docs: seq<Product>, items: seq<OrderItem>, total: int) | Stop(reply: Reply)

  /** The loop body for cart line `k`: the product must exist and be exactly
      `available` (a lapsed reservation does not count), and is then held. */
  function CartLineStep(s: CartPass, line: CartItem, k: nat, expires: int, reservationId: string): (r: CartPass)
    ensures r.Pass? ==> s.Pass? && SameKeys(s.docs, r.docs)
  {
    match s
    case Stop(_) => s
    case Pass(docs, items, total) =>
      match FindByIdOrProductId(docs, line.productId)
      case None => Stop(CartItemNotFound(k))
      case Some(i) =>
        if docs[i].status != Available then Stop(CartItemUnavailable(k, docs[i].status))
        else
          var held := CheckoutHold(docs[i], expires, reservationId);
          Pass(docs[i := held], items + [LineFor(held)], total + held.price)
  }

  /** The whole loop over the cart lines, in order. */
  function ReserveCartLines(docs: seq<Product>, lines: seq<CartItem>, expires: int, reservationId: string): (r: CartPass)
    ensures r.Pass? ==> SameKeys(docs, r.docs)
    decreases |lines|
  {
    if |lines| == 0 then Pass(docs, [], 0)
    else CartLineStep(ReserveCartLines(docs, lines[..|lines| - 1], expires, reservationId),
                      lines[|lines| - 1], |lines| - 1, expires, reservationId)
  }

  lemma ReserveCartLinesStep(docs: seq<Product>, lines: seq<CartItem>, k: nat, expires: int, reservationId: string)
    requires k < |lines|
    ensures ReserveCartLines(docs, lines[..k + 1], expires, reservationId)
            == CartLineStep(ReserveCartLines(docs, lines[..k], expires, reservationId), lines[k], k, expires, reservationId)
  {
    assert lines[..k + 1][..k] == lines[..k];
  }

  /** Lookups read only the keys. */
  lemma FindByIdOrProductIdSameKeys(a: seq<Product>, b: seq<Product>, s: string)
    requires SameKeys(a, b)
    ensures FindByIdOrProductId(a, s) == FindByIdOrProductId(b, s)
  {
    IndexWhereCongruent(a, (p: Product) => (IsObjectIdHex(s) && p.id == NativeId(ToLowerAscii(s))) || p.productId == s,
                        b, (p: Product) => (IsObjectIdHex(s) && p.id == NativeId(ToLowerAscii(s))) || p.productId == s);
  }

  /** `Σ price` over order lines. */
  function PriceSum(items: seq<OrderItem>): int {
    if |items| == 0 then 0 else PriceSum(items[..|items| - 1]) + items[|items| - 1].price
  }

  /** Every record is untouched, or was available and is now held. */
  predicate OnlyHeld(docs0: seq<Product>, docs: seq<Product>, expires: int, reservationId: string) {
    |docs| == |docs0|
    && forall j :: 0 <= j < |docs0| ==>
         docs[j] == docs0[j] || (docs0[j].status == Available && docs[j] == CheckoutHold(docs0[j], expires, reservationId))
  }

  /** Each of the first `n` cart lines named an available record of the
      original store, that record is now held, and its order line is there. */
  predicate HeldForLines(docs0: seq<Product>, docs: seq<Product>, items: seq<OrderItem>, lines: seq<CartItem>,
                         n: nat, expires: int, reservationId: string)
    requires n <= |lines| && n <= |items| && |docs| == |docs0|
  {
    forall k :: 0 <= k < n ==>
      var f := FindByIdOrProductId(docs0, lines[k].productId);
      f.Some? && docs0[f.value].status == Available
      && docs[f.value] == CheckoutHold(docs0[f.value], expires, reservationId)
      && items[k] == LineFor(docs0[f.value])
  }

  /** What a completed cart loop has done so far. */
  predicate CartLoopDone(docs0: seq<Product>, s: CartPass, lines: seq<CartItem>, n: nat,
                         expires: int, reservationId: string)
    requires n <= |lines|
  {
    s.Pass? && SameKeys(docs0, s.docs) && |s.items| == n && s.total == PriceSum(s.items)
    && OnlyHeld(docs0, s.docs, expires, reservationId)
    && HeldForLines(docs0, s.docs, s.items, lines, n, expires, reservationId)
  }

  /** One more line held keeps the loop's account. */
  lemma CartLineStepKeeps(docs0: seq<Product>, s: CartPass, lines: seq<CartItem>, n: nat,
                          expires: int, reservationId: string)
    requires n < |lines| && CartLoopDone(docs0, s, lines, n, expires, reservationId)
    requires CartLineStep(s, lines[n], n, expires, reservationId).Pass?
    ensures CartLoopDone(docs0, CartLineStep(s, lines[n], n, expires, reservationId), lines, n + 1, expires, reservationId)
  {
    var r := CartLineStep(s, lines[n], n, expires, reservationId);
    FindByIdOrProductIdSameKeys(docs0, s.docs, lines[n].productId);
    var i := FindByIdOrProductId(s.docs, lines[n].productId).value;
    assert s.docs[i] == docs0[i];
    assert r.docs == s.docs[i := CheckoutHold(docs0[i], expires, reservationId)];
    assert r.items == s.items + [LineFor(CheckoutHold(docs0[i], expires, reservationId))];
    assert r.items[..n] == s.items;
    HeldLinesKept(docs0, s.docs, s.items, lines, n, i, expires, reservationId);
    OnlyHeldKept(docs0, s.docs, i, expires, reservationId);
  }

  lemma OnlyHeldKept(docs0: seq<Product>, docs: seq<Product>, i: nat, expires: int, reservationId: string)
    requires OnlyHeld(docs0, docs, expires, reservationId) && i < |docs|
    requires docs[i] == docs0[i] && docs0[i].status == Available
    ensures OnlyHeld(docs0, docs[i := CheckoutHold(docs0[i], expires, reservationId)], expires, reservationId)
  {
  }

  /** Holding one more, previously available, record keeps the earlier lines'
      account and adds line `n`'s. */
  lemma HeldLinesKept(docs0: seq<Product>, docs: seq<Product>, items: seq<OrderItem>, lines: seq<CartItem>,
                      n: nat, i: nat, expires: int, reservationId: string)
    requires n < |lines| && n == |items| && |docs| == |docs0| && i < |docs0|
    requires HeldForLines(docs0, docs, items, lines, n, expires, reservationId)
    requires FindByIdOrProductId(docs0, lines[n].productId) == Some(i)
    requires docs[i] == docs0[i] && docs0[i].status == Available
    ensures var held := CheckoutHold(docs0[i], expires, reservationId);
            HeldForLines(docs0, docs[i := held], items + [LineFor(held)], lines, n + 1, expires, reservationId)
  {
    var held := CheckoutHold(docs0[i], expires, reservationId);
    var docs' := docs[i := held];
    var items' := items + [LineFor(held)];
    forall k | 0 <= k < n + 1
      ensures var f := FindByIdOrProductId(docs0, lines[k].productId);
              f.Some? && docs0[f.value].status == Available
              && docs'[f.value] == CheckoutHold(docs0[f.value], expires, reservationId)
              && items'[k] == LineFor(docs0[f.value])
    {
      if k < n {
        var f := FindByIdOrProductId(docs0, lines[k].productId).value;
        assert docs[f].status == Status.Reserved;
        assert items'[k] == items[k];
      }
    }
  }

  /** On success the loop has held, for every cart line, the available record
      it names (and nothing else), with one order line per cart line and the
      total of their prices. */
  lemma ReserveCartLinesFacts(docs: seq<Product>, lines: seq<CartItem>, expires: int, reservationId: string)
    requires ReserveCartLines(docs, lines, expires, reservationId).Pass?
    ensures CartLoopDone(docs, ReserveCartLines(docs, lines, expires, reservationId), lines, |lines|, expires, reservationId)
  {
    assert lines[..|lines|] == lines;
    PrefixFacts(docs, lines, |lines|, expires, reservationId);
  }

  lemma {:induction false} PrefixFacts(docs: seq<Product>, lines: seq<CartItem>, n: nat, expires: int, reservationId: string)
    requires n <= |lines| && ReserveCartLines(docs, lines[..n], expires, reservationId).Pass?
    ensures CartLoopDone(docs, ReserveCartLines(docs, lines[..n], expires, reservationId), lines, n, expires, reservationId)
  {
    if n > 0 {
      ReserveCartLinesStep(docs, lines, n - 1, expires, reservationId);
      PrefixFacts(docs, lines, n - 1, expires, reservationId);
      CartLineStepKeeps(docs, ReserveCartLines(docs, lines[..n - 1], expires, reservationId), lines, n - 1, expires, reservationId);
    }
  }

  /** Cart checkout is refused as soon as any line names a record that is not
      exactly `available`, a lapsed reservation included. */
  lemma CartRejectsUnavailable(docs: seq<Product>, lines: seq<CartItem>, k: nat, expires: int, reservationId: string)
    requires k < |lines|
    requires var f := FindByIdOrProductId(docs, lines[k].productId);
             f.None? || docs[f.value].status != Available
    ensures ReserveCartLines(docs, lines, expires, reservationId).Stop?
  {
    if ReserveCartLines(docs, lines, expires, reservationId).Pass? {
      ReserveCartLinesFacts(docs, lines, expires, reservationId);
      assert false;
    }
  }

  /** The loop body: reserve the product of cart line `k` through
      `product.save()`. */
  method CheckoutCartLine(products: ProductCollection, line: CartItem, k: nat, items: seq<OrderItem>, total: int,
                          expires: int, reservationId: string)
    returns (stop: Option<Reply>, newItems: seq<OrderItem>, newTotal: int)
    requires products.Valid()
    modifies products
    ensures products.Valid()
    ensures var r := CartLineStep(Pass(old(products.docs), items, total), line, k, expires, reservationId);
            if stop.Some? then r == Stop(stop.value) && products.docs == old(products.docs)
            else r == Pass(products.docs, newItems, newTotal)
  {
    var found := FindByIdOrProductId(products.docs, line.productId);
    if found.None? {
      return Some(CartItemNotFound(k)), items, total;
    }
    var i := found.value;
    if products.docs[i].status != Available {
      return Some(CartItemUnavailable(k, products.docs[i].status)), items, total;
    }
    var held := SaveFields(products, i, ReservePatch(expires, reservationId, KeepHolder));
    stop, newItems, newTotal := None, items + [LineFor(held)], total + held.price;
  }

  /** The cart loop. On a refusal the store may hold the earlier lines'
      reservations; the handler then aborts the transaction. */
  method CheckoutCartLines(products: ProductCollection, lines: seq<CartItem>, expires: int, reservationId: string)
    returns (stop: Option<Reply>, items: seq<OrderItem>, total: int)
    requires products.Valid()
    modifies products
    ensures products.Valid()
    ensures var r := ReserveCartLines(old(products.docs), lines, expires, reservationId);
            if stop.Some? then r == Stop(stop.value) else r == Pass(products.docs, items, total)
  {
    ghost var docs0 := products.docs;
    stop, items, total := None, [], 0;
    var k := 0;
    while k < |lines|
      invariant 0 <= k <= |lines| && products.Valid() && stop.None?
      invariant ReserveCartLines(docs0, lines[..k], expires, reservationId) == Pass(products.docs, items, total)
    {
      ReserveCartLinesStep(docs0, lines, k, expires, reservationId);
      stop, items, total := CheckoutCartLine(products, lines[k], k, items, total, expires, reservationId);
      if stop.Some? {
        assert ReserveCartLines(docs0, lines[..k + 1], expires, reservationId) == Stop(stop.value);
        StopPersists(docs0, lines, k + 1, expires, reservationId);
        return;
      }
      k := k + 1;
    }
    assert lines[..k] == lines;
  }

  /** Once the loop has stopped, the later lines change nothing. */
  lemma {:induction false} StopPersists(docs: seq<Product>, lines: seq<CartItem>, k: nat, expires: int, reservationId: string)
    requires k <= |lines| && ReserveCartLines(docs, lines[..k], expires, reservationId).Stop?
    ensures ReserveCartLines(docs, lines, expires, reservationId) == ReserveCartLines(docs, lines[..k], expires, reservationId)
    decreases |lines| - k
  {
    if k < |lines| {
      ReserveCartLinesStep(docs, lines, k, expires, reservationId);
      StopPersists(docs, lines, k + 1, expires, reservationId);
    } else {
      assert lines[..k] == lines;
    }
  }

  /** The cart as the handler saves it after the order: no items and zero
      totals, with the save stamping the activity time. */
  function ClearedCart(v: CartValue, now: int): (c: CartValue)
    ensures c.items == [] && c.subtotal == 0 && c.shipping == 0 && c.tax == 0 && c.total == 0
    ensures c.userId == v.userId && c.status == v.status && c.lastActivity == now
  {
    v.(items := [], subtotal := 0, shipping := 0, tax := 0, total := 0, lastActivity := now)
  }

  /** POST /cart: the address check, the user's non-empty cart, the loop that
      holds every line's product under one reservation id, the order, and the
      cart emptied only after the order is saved; any refusal or failing save
      aborts the transaction and leaves every store as it was. */
  method CheckoutCart(products: ProductCollection, orders: OrderCollection, carts: CartStore,
                      customer: CustomerInfo, user: UserId, now: int,
                      reservationId: string, orderDocId: string, orderId: string) returns (reply: Reply)
    requires products.Valid() && orders.Valid() && carts.Valid() && FreshId(orders.docs, orderDocId)
    modifies products, orders, carts
    ensures products.Valid() && orders.Valid() && carts.Valid()
    ensures !CustomerComplete(customer) || user !in old(carts.carts) || old(carts.carts)[user].items == [] ==>
              reply == (if !CustomerComplete(customer) then AddressRequired else CartIsEmpty)
              && products.docs == old(products.docs) && orders.docs == old(orders.docs) && carts.carts == old(carts.carts)
    ensures CustomerComplete(customer) && user in old(carts.carts) && old(carts.carts)[user].items != [] ==>
              var expires := now + ReservationMs;
              var r := ReserveCartLines(old(products.docs), old(carts.carts)[user].items, expires, reservationId);
              if r.Stop? then
                reply == r.reply
                && products.docs == old(products.docs) && orders.docs == old(orders.docs) && carts.carts == old(carts.carts)
              else
                var order := ReservedOrder(orderDocId, orderId, user, r.items, r.total, customer, expires, reservationId);
                if PassesValidation(order) && FreshOrderId(old(orders.docs), orderId) then
                  reply == OrderCreated(orderId, r.total, |r.items|, expires)
                  && products.docs == r.docs && orders.docs == old(orders.docs) + [order]
                  && carts.carts == old(carts.carts)[user := ClearedCart(old(carts.carts)[user], now)]
                else
                  reply == ServerError
                  && products.docs == old(products.docs) && orders.docs == old(orders.docs) && carts.carts == old(carts.carts)
  {
    if !CustomerComplete(customer) {
      return AddressRequired;
    }
    if user !in carts.carts || carts.carts[user].items == [] {
      return CartIsEmpty;
    }
    reply := ReserveCartAndPlaceOrder(products, orders, carts.carts[user].items, customer, user, now + ReservationMs,
                                      reservationId, orderDocId, orderId);
    if reply.OrderCreated? {
      EmptyCartAfterOrder(carts, user, now);
    }
  }

  /** Loads the user's cart, empties it and saves it. */
  method EmptyCartAfterOrder(carts: CartStore, user: UserId, now: int)
    requires carts.Valid() && user in carts.carts
    modifies carts
    ensures carts.Valid() && carts.carts == old(carts.carts)[user := ClearedCart(old(carts.carts)[user], now)]
  {
    var cart := new Cart.Hydrate(carts.carts[user]);
    cart.ClearCart();
    var saved := cart.Save(carts, now);
    assert cart.Value() == ClearedCart(old(carts.carts)[user], now);
  }

  /** The transactional part of POST /cart: the loop over the cart lines and
      the order, with the products restored on a refusal or a failing save. */
  method ReserveCartAndPlaceOrder(products: ProductCollection, orders: OrderCollection, lines: seq<CartItem>,
                                  customer: CustomerInfo, user: UserId, expires: int,
                                  reservationId: string, orderDocId: string, orderId: string) returns (reply: Reply)
    requires products.Valid() && orders.Valid() && FreshId(orders.docs, orderDocId)
    modifies products, orders
    ensures products.Valid() && orders.Valid()
    ensures var r := ReserveCartLines(old(products.docs), lines, expires, reservationId);
            if r.Stop? then
              reply == r.reply && !reply.OrderCreated?
              && products.docs == old(products.docs) && orders.docs == old(orders.docs)
            else
              var order := ReservedOrder(orderDocId, orderId, user, r.items, r.total, customer, expires, reservationId);
              if PassesValidation(order) && FreshOrderId(old(orders.docs), orderId) then
                reply == OrderCreated(orderId, r.total, |r.items|, expires)
                && products.docs == r.docs && orders.docs == old(orders.docs) + [order]
              else
                reply == ServerError && products.docs == old(products.docs) && orders.docs == old(orders.docs)
  {
    var snapshot := products.docs;
    var stop, items, total := CheckoutCartLines(products, lines, expires, reservationId);
    if stop.Some? {
      StopIsRefusal(snapshot, lines, expires, reservationId);
      products.Restore(snapshot);
      return stop.value;
    }
    var order := ReservedOrder(orderDocId, orderId, user, items, total, customer, expires, reservationId);
    var saved := PlaceOrder(products, orders, snapshot, order);
    reply := if saved then OrderCreated(orderId, total, |items|, expires) else ServerError;
  }

  /** The loop only ever stops with a not-found or not-available answer. */
  lemma {:induction false} StopIsRefusal(docs: seq<Product>, lines: seq<CartItem>, expires: int, reservationId: string)
    ensures var r := ReserveCartLines(docs, lines, expires, reservationId);
            r.Stop? ==> r.reply.CartItemNotFound? || r.reply.CartItemUnavailable?
    decreases |lines|
  {
    if |lines| > 0 {
      StopIsRefusal(docs, lines[..|lines| - 1], expires, reservationId);
    }
  }

  // ---------------------------------------------------------------------------
  // Writing every item of an order

  /** `updateOne({ _id: item.product }, { $set: u })` for each item in turn. */
  function UpdateItems(docs: seq<Product>, items: seq<OrderItem>, u: Patch): (r: seq<Product>)
    ensures SameKeys(docs, r)
    decreases |items|
  {
    if |items| == 0 then docs
    else UpdateFirst(UpdateItems(docs, items[..|items| - 1], u), ById(items[|items| - 1].product), u)
  }

  lemma UpdateItemsStep(docs: seq<Product>, items: seq<OrderItem>, k: nat, u: Patch)
    requires k < |items|
    ensures UpdateItems(docs, items[..k + 1], u) == UpdateFirst(UpdateItems(docs, items[..k], u), ById(items[k].product), u)
  {
    assert items[..k + 1][..k] == items[..k];
  }

  /** Some item of the order references this `_id`. */
  predicate Names(items: seq<OrderItem>, key: Key) {
    exists k :: 0 <= k < |items| && items[k].product == key
  }

  /** In a valid store, writing the items patches exactly the records an item
      references, each once, whatever their current status or holder. */
  lemma UpdateItemsEffect(docs: seq<Product>, items: seq<OrderItem>, u: Patch)
    requires ValidDocs(docs)
    ensures var r := UpdateItems(docs, items, u);
            forall j :: 0 <= j < |docs| ==> r[j] == if Names(items, docs[j].id) then Apply(docs[j], u) else docs[j]
  {
    forall j | 0 <= j < |docs|
      ensures UpdateItems(docs, items, u)[j] == if Names(items, docs[j].id) then Apply(docs[j], u) else docs[j]
    {
      UpdateItemsAt(docs, items, u, j);
    }
  }

  lemma {:induction false} UpdateItemsAt(docs: seq<Product>, items: seq<OrderItem>, u: Patch, j: nat)
    requires ValidDocs(docs) && j < |docs|
    ensures UpdateItems(docs, items, u)[j] == if Names(items, docs[j].id) then Apply(docs[j], u) else docs[j]
    decreases |items|
  {
    if |items| > 0 {
      var n := |items| - 1;
      var s := UpdateItems(docs, items[..n], u);
      UpdateItemsAt(docs, items[..n], u, j);
      SameKeysKeepValid(docs, s);
      UpdateByIdAt(s, items[n].product, u, j);
      NamesSnoc(items, docs[j].id);
    }
  }

  /** `updateOne({ _id: key })` on a valid store patches exactly the record
      with that `_id`. */
  lemma UpdateByIdAt(docs: seq<Product>, key: Key, u: Patch, j: nat)
    requires ValidDocs(docs) && j < |docs|
    ensures UpdateFirst(docs, ById(key), u)[j] == if docs[j].id == key then Apply(docs[j], u) else docs[j]
  {
    if docs[j].id == key {
      FindFirstUnique(docs, j);
    }
  }

  lemma NamesSnoc(items: seq<OrderItem>, key: Key)
    requires |items| > 0
    ensures Names(items, key) <==> Names(items[..|items| - 1], key) || items[|items| - 1].product == key
  {
    var prefix := items[..|items| - 1];
    if Names(items, key) && items[|items| - 1].product != key {
      var k :| 0 <= k < |items| && items[k].product == key;
      assert prefix[k] == items[k];
    }
    if Names(prefix, key) {
      var k :| 0 <= k < |prefix| && prefix[k].product == key;
      assert items[k] == prefix[k];
    }
  }

  /** Applies the patch to each item's product, in order. */
  method UpdateEachItem(products: ProductCollection, items: seq<OrderItem>, u: Patch)
    requires products.Valid()
    modifies products
    ensures products.Valid() && products.docs == UpdateItems(old(products.docs), items, u)
  {
    ghost var docs0 := products.docs;
    var k := 0;
    while k < |items|
      invariant 0 <= k <= |items| && products.Valid()
      invariant products.docs == UpdateItems(docs0, items[..k], u)
    {
      UpdateItemsStep(docs0, items, k, u);
      var matched := products.UpdateOne(ById(items[k].product), u);
      k := k + 1;
    }
    assert items[..k] == items;
  }

  // ---------------------------------------------------------------------------
  // POST /confirm-payment and POST /cancel/:orderId

  /** Changing status and payment fields never makes a stored order fail
      validation. */
  lemma OrderStatusChangeKeepsValidation(o: Order, s: OrderStatus, ps: PaymentState,
                                         tx: Option<string>, paidAt: Option<int>)
    requires PassesValidation(o)
    ensures PassesValidation(o.(status := s, paymentStatus := ps, transactionId := tx, paidAt := paidAt))
  {
  }

  /** POST /confirm-payment: a transaction id is required; the caller's order
      must be reserved and `now` not past its deadline; the order becomes sold
      with its payment completed, and every item's product is marked sold
      whoever holds it now. */
  method ConfirmPayment(products: ProductCollection, orders: OrderCollection, orderDocId: string,
                        transactionId: Option<string>, user: UserId, now: int) returns (reply: Reply)
    requires products.Valid() && orders.Valid()
    modifies products, orders
    ensures products.Valid() && orders.Valid()
    ensures !Filled(transactionId) ==>
              reply == TransactionIdRequired && products.docs == old(products.docs) && orders.docs == old(orders.docs)
    ensures Filled(transactionId) ==>
              match FindOrder(old(orders.docs), orderDocId, user, OrderStatus.Reserved)
              case None =>
                reply == ReservedOrderNotFound && products.docs == old(products.docs) && orders.docs == old(orders.docs)
              case Some(k) =>
                var o := old(orders.docs)[k];
                if now > o.reservationExpiresAt then
                  reply == ReservationExpired && products.docs == old(products.docs) && orders.docs == old(orders.docs)
                else
                  reply == PaymentConfirmed(o.orderId)
                  && orders.docs == old(orders.docs)[k := o.(status := OrderStatus.Sold, paymentStatus := PaymentCompleted,
                                                             transactionId := transactionId, paidAt := Some(now))]
                  && products.docs == UpdateItems(old(products.docs), o.items, SoldPatch(false))
  {
    if !Filled(transactionId) {
      return TransactionIdRequired;
    }
    var found := FindOrder(orders.docs, orderDocId, user, OrderStatus.Reserved);
    if found.None? {
      return ReservedOrderNotFound;
    }
    var k := found.value;
    var order := orders.docs[k];
    if now > order.reservationExpiresAt {
      return ReservationExpired;
    }
    OrderStatusChangeKeepsValidation(order, OrderStatus.Sold, PaymentCompleted, transactionId, Some(now));
    var saved := orders.Save(k, order.(status := OrderStatus.Sold, paymentStatus := PaymentCompleted,
                                       transactionId := transactionId, paidAt := Some(now)));
    UpdateEachItem(products, order.items, SoldPatch(false));
    reply := PaymentConfirmed(order.orderId);
  }

  /** POST /cancel/:orderId: the caller's reserved order is cancelled with its
      payment expired, and every item's product is made available again,
      whether or not it is still held under this order's reservation. */
  method Cancel(products: ProductCollection, orders: OrderCollection, orderDocId: string,
                user: UserId) returns (reply: Reply)
    requires products.Valid() && orders.Valid()
    modifies products, orders
    ensures products.Valid() && orders.Valid()
    ensures match FindOrder(old(orders.docs), orderDocId, user, OrderStatus.Reserved)
            case None =>
              reply == ReservedOrderNotFound && products.docs == old(products.docs) && orders.docs == old(orders.docs)
            case Some(k) =>
              var o := old(orders.docs)[k];
              reply == ReservationCancelled(o.orderId)
              && orders.docs == old(orders.docs)[k := o.(status := Cancelled, paymentStatus := PaymentExpired)]
              && products.docs == UpdateItems(old(products.docs), o.items, ReleasePatch(false))
  {
    var found := FindOrder(orders.docs, orderDocId, user, OrderStatus.Reserved);
    if found.None? {
      return ReservedOrderNotFound;
    }
    var k := found.value;
    var order := orders.docs[k];
    UpdateEachItem(products, order.items, ReleasePatch(false));
    OrderStatusChangeKeepsValidation(order, Cancelled, PaymentExpired, order.transactionId, order.paidAt);
    var saved := orders.Save(k, order.(status := Cancelled, paymentStatus := PaymentExpired));
    reply := ReservationCancelled(order.orderId);
  }

  /** Cancelling releases a referenced product even when it has meanwhile
      been sold to somebody else. */
  lemma CancelReleasesSoldItems(docs: seq<Product>, items: seq<OrderItem>, j: nat)
    requires ValidDocs(docs) && j < |docs| && docs[j].status == Status.Sold && Names(items, docs[j].id)
    ensures UpdateItems(docs, items, ReleasePatch(false))[j].status == Available
  {
    UpdateItemsEffect(docs, items, ReleasePatch(false));
  }
}
