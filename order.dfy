/** The checkout order record: a data shape with an enum status, required
    customer fields and ObjectId product references, stored in a collection
    whose save applies that validation. */
module Orders {
  import opened Common
  import opened Products

  datatype OrderStatus = Pending | Reserved | Confirmed | Sold | Expired | Cancelled

  /** `paymentInfo.paymentStatus`. */
  datatype PaymentState = PaymentPending | PaymentCompleted | PaymentFailed | PaymentExpired

  datatype OrderItem = OrderItem(product: Key, productId: string, name: string, price: int, quantity: int)

  datatype CustomerInfo = CustomerInfo(
    fullName: string, email: string, phoneNumber: string,
    addressLine1: string, addressLine2: Option<string>,
    city: string, state: string, pincode: string)

  /** One order; `id` is the document's `_id`, `orderId` the human-facing id. */
  datatype Order = Order(
    id: string,
    orderId: string,
    user: UserId,
    items: seq<OrderItem>,
    totalAmount: int,
    status: OrderStatus,
    customer: CustomerInfo,
    paymentStatus: PaymentState,
    transactionId: Option<string>,
    paidAt: Option<int>,
    reservationExpiresAt: int,
    reservationId: string)

  /** The fields the checkout form must fill: everything but address line 2. */
  predicate CustomerComplete(c: CustomerInfo) {
    c.fullName != "" && c.email != "" && c.phoneNumber != "" && c.addressLine1 != ""
    && c.city != "" && c.state != "" && c.pincode != ""
  }

  /** The item sub-schema: a `product` that casts to an ObjectId and the
      required `productId` and `name`. */
  predicate ItemPassesValidation(it: OrderItem) {
    it.product.NativeId? && it.productId != "" && it.name != ""
  }

  /** Schema validation on save: the required ids, customer fields and items. */
  predicate PassesValidation(o: Order) {
    o.orderId != "" && o.reservationId != "" && CustomerComplete(o.customer)
    && forall k :: 0 <= k < |o.items| ==> ItemPassesValidation(o.items[k])
  }

  /** An order for products with a custom string `_id` can never be stored. */
  lemma CustomIdItemFailsValidation(o: Order, k: nat)
    requires k < |o.items| && o.items[k].product.CustomId?
    ensures !PassesValidation(o)
  {
  }

  predicate ValidOrders(docs: seq<Order>) {
    (forall i :: 0 <= i < |docs| ==> PassesValidation(docs[i]))
    && (forall i, j :: 0 <= i < j < |docs| ==> docs[i].id != docs[j].id && docs[i].orderId != docs[j].orderId)
  }

  /** No stored order has this `_id`. */
  predicate FreshId(docs: seq<Order>, id: string) {
    forall i :: 0 <= i < |docs| ==> docs[i].id != id
  }

  /** No stored order has this `orderId` (the field carries a unique index). */
  predicate FreshOrderId(docs: seq<Order>, orderId: string) {
    forall i :: 0 <= i < |docs| ==> docs[i].orderId != orderId
  }

  /** `Order.findOne({ _id: id, user, status })`. */
  function FindOrder(docs: seq<Order>, id: string, user: UserId, status: OrderStatus): (r: Option<nat>)
    ensures r.Some? ==> r.value < |docs| && docs[r.value].id == id
                        && docs[r.value].user == user && docs[r.value].status == status
    ensures r.None? <==> forall j :: 0 <= j < |docs| ==>
                           !(docs[j].id == id && docs[j].user == user && docs[j].status == status)
  {
    IndexWhere(docs, (o: Order) => o.id == id && o.user == user && o.status == status)
  }

  class OrderCollection {
    var docs: seq<Order>

    ghost predicate Valid()
      reads this
    {
      ValidOrders(docs)
    }

    constructor (initial: seq<Order>)
      requires ValidOrders(initial)
      ensures docs == initial && Valid()
    {
      docs := initial;
    }

    /** `new Order(o).save()`; `o.id` is the freshly generated `_id`. The
        save fails on validation or on a duplicate `orderId`. */
    method Insert(o: Order) returns (saved: bool)
      requires Valid() && FreshId(docs, o.id)
      modifies this
      ensures Valid()
      ensures saved == (PassesValidation(o) && FreshOrderId(old(docs), o.orderId))
      ensures docs == if saved then old(docs) + [o] else old(docs)
    {
      saved := PassesValidation(o) && FreshOrderId(docs, o.orderId);
      if saved {
        docs := docs + [o];
      }
    }

    /** `order.save()` of the loaded document at position `i`. */
    method Save(i: nat, o: Order) returns (saved: bool)
      requires Valid() && i < |docs| && o.id == docs[i].id && o.orderId == docs[i].orderId
      modifies this
      ensures Valid()
      ensures saved == PassesValidation(o)
      ensures docs == if saved then old(docs)[i := o] else old(docs)
    {
      saved := PassesValidation(o);
      if saved {
        docs := docs[i := o];
      }
    }
  }
}
