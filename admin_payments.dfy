/** The admin side of manual payments: verifying or rejecting a pending
    payment (which sells or releases its product), the status summary, and
    the page count of the listings. */
module AdminPayments {
  import opened Common
  import opened Products
  import opened Payments

  datatype Reply =
    | PaymentNotFound
    | AlreadyResolved(status: PayStatus)
    | PaymentVerified(orderId: string)
    | PaymentRejected(orderId: string)

  // ---------------------------------------------------------------------------
  // The shared guard

  /** What both handlers find: no payment with that order id, one that is no
      longer pending, or the pending payment at position `k`. */
  datatype Gate = Missing | Resolved(status: PayStatus) | Open(k: nat)

  function AdminGate(docs: seq<Payment>, orderId: string): (g: Gate)
    ensures g.Open? ==> g.k < |docs| && docs[g.k].orderId == orderId && docs[g.k].status == Pending
  {
    match FindByOrderId(docs, orderId)
    case None => Missing
    case Some(k) => if docs[k].status != Pending then Resolved(docs[k].status) else Open(k)
  }

  /** Only a pending payment passes: an unknown order id is not found, and a
      payment already verified, failed or expired is refused with its status,
      so neither handler ever resolves a payment twice. */
  lemma AdminGateCases(docs: seq<Payment>, orderId: string)
    requires ValidPayments(docs)
    ensures var g := AdminGate(docs, orderId);
            (g == Missing <==> forall j :: 0 <= j < |docs| ==> docs[j].orderId != orderId)
            && (g.Resolved? <==> exists j :: 0 <= j < |docs| && docs[j].orderId == orderId && docs[j].status != Pending)
            && (g.Resolved? ==> g.status != Pending)
            && (g.Open? <==> exists j :: 0 <= j < |docs| && docs[j].orderId == orderId && docs[j].status == Pending)
  {
    var g := AdminGate(docs, orderId);
    if g.Resolved? || g.Open? {
      var k := FindByOrderId(docs, orderId).value;
      forall j | 0 <= j < |docs| && j != k
        ensures docs[j].orderId != orderId
      {
        OrderIdsDiffer(docs, j, k);
      }
    }
  }

  /** Order ids are unique: two positions hold two different order ids. */
  lemma OrderIdsDiffer(docs: seq<Payment>, j: nat, k: nat)
    requires ValidPayments(docs) && j < |docs| && k < |docs| && j != k
    ensures docs[j].orderId != docs[k].orderId
  {
    if j < k {
      assert DistinctOrderIds(docs[j], docs[k]);
    } else {
      assert DistinctOrderIds(docs[k], docs[j]);
    }
  }

  /** `findByIdAndUpdate(payment.productId, u)`: the update goes through the
      query API, so the save hooks do not run; a payment without an ObjectId
      reference names no record. */
  function UpdateReferenced(docs: seq<Product>, p: Payment, u: Patch): (r: seq<Product>)
    ensures SameKeys(docs, r)
    ensures p.productRef.None? ==> r == docs
  {
    if p.productRef.Some? then UpdateFirst(docs, ById(p.productRef.value), u) else docs
  }

  /** In a valid store the update changes exactly the referenced record, and
      the patch lands whatever the record held before. */
  lemma UpdateReferencedAt(docs: seq<Product>, p: Payment, u: Patch, j: nat)
    requires ValidDocs(docs) && j < |docs|
    ensures UpdateReferenced(docs, p, u)[j]
            == if p.productRef == Some(docs[j].id) then Apply(docs[j], u) else docs[j]
  {
    if p.productRef == Some(docs[j].id) {
      FindFirstUnique(docs, j);
    }
  }

  method UpdateReferencedRecord(products: ProductCollection, p: Payment, u: Patch)
    requires products.Valid()
    modifies products
    ensures products.Valid() && products.docs == UpdateReferenced(old(products.docs), p, u)
  {
    if p.productRef.Some? {
      var matched := products.UpdateOne(ById(p.productRef.value), u);
    }
  }

  // ---------------------------------------------------------------------------
  // POST /verify/:orderId and POST /reject/:orderId

  /** The payment as verify saves it. */
  function VerifiedBy(p: Payment, admin: UserId, now: int, notes: Option<string>): (q: Payment)
    ensures q.status == Verified && q.verifiedBy == Some(admin) && q.verifiedAt == Some(now) && q.adminNotes == notes
    ensures q.(status := p.status, verifiedBy := p.verifiedBy, verifiedAt := p.verifiedAt, adminNotes := p.adminNotes) == p
  {
    p.(status := Verified, verifiedBy := Some(admin), verifiedAt := Some(now), adminNotes := notes)
  }

  /** The payment as reject saves it: failed with the notes; the verifier
      fields are left as they were. */
  function RejectedWith(p: Payment, notes: Option<string>): (q: Payment)
    ensures q.status == Failed && q.adminNotes == notes
    ensures q.(status := p.status, adminNotes := p.adminNotes) == p
  {
    p.(status := Failed, adminNotes := notes)
  }

  /** POST /verify/:orderId: a pending payment is saved as verified by
      `admin` at `now` with the notes, and its referenced product is set to
      sold with deadline and reservation id cleared. */
  method Verify(payments: PaymentCollection, products: ProductCollection, orderId: string,
                admin: UserId, notes: Option<string>, now: int) returns (reply: Reply)
    requires payments.Valid() && products.Valid()
    modifies payments, products
    ensures payments.Valid() && products.Valid()
    ensures match AdminGate(old(payments.docs), orderId)
            case Missing =>
              reply == PaymentNotFound && payments.docs == old(payments.docs) && products.docs == old(products.docs)
            case Resolved(s) =>
              reply == AlreadyResolved(s) && payments.docs == old(payments.docs) && products.docs == old(products.docs)
            case Open(k) =>
              var p := old(payments.docs)[k];
              reply == PaymentVerified(orderId)
              && payments.docs == old(payments.docs)[k := VerifiedBy(p, admin, now, notes)]
              && products.docs == UpdateReferenced(old(products.docs), p, SoldPatch(false))
  {
    var gate := AdminGate(payments.docs, orderId);
    if gate.Missing? {
      return PaymentNotFound;
    }
    if gate.Resolved? {
      return AlreadyResolved(gate.status);
    }
    var k := gate.k;
    var p := payments.docs[k];
    StatusChangeKeepsValidation(p, Verified, notes, Some(admin), Some(now));
    var saved := payments.Save(k, VerifiedBy(p, admin, now, notes));
    UpdateReferencedRecord(products, p, SoldPatch(false));
    reply := PaymentVerified(orderId);
  }

  /** POST /reject/:orderId: a pending payment is saved as failed with the
      notes, and its referenced product is set to available with deadline
      and reservation id cleared, whoever holds it now. */
  method Reject(payments: PaymentCollection, products: ProductCollection, orderId: string,
                notes: Option<string>) returns (reply: Reply)
    requires payments.Valid() && products.Valid()
    modifies payments, products
    ensures payments.Valid() && products.Valid()
    ensures match AdminGate(old(payments.docs), orderId)
            case Missing =>
              reply == PaymentNotFound && payments.docs == old(payments.docs) && products.docs == old(products.docs)
            case Resolved(s) =>
              reply == AlreadyResolved(s) && payments.docs == old(payments.docs) && products.docs == old(products.docs)
            case Open(k) =>
              var p := old(payments.docs)[k];
              reply == PaymentRejected(orderId)
              && payments.docs == old(payments.docs)[k := RejectedWith(p, notes)]
              && products.docs == UpdateReferenced(old(products.docs), p, ReleasePatch(false))
  {
    var gate := AdminGate(payments.docs, orderId);
    if gate.Missing? {
      return PaymentNotFound;
    }
    if gate.Resolved? {
      return AlreadyResolved(gate.status);
    }
    var k := gate.k;
    var p := payments.docs[k];
    StatusChangeKeepsValidation(p, Failed, notes, p.verifiedBy, p.verifiedAt);
    var saved := payments.Save(k, RejectedWith(p, notes));
    UpdateReferencedRecord(products, p, ReleasePatch(false));
    reply := PaymentRejected(orderId);
  }

  /** Rejection releases the referenced product unconditionally: a record
      since sold, or reserved again under another reservation, comes back
      available with its deadline and reservation id cleared. */
  lemma RejectReleasesWhateverTheState(docs: seq<Product>, p: Payment, j: nat)
    requires ValidDocs(docs) && j < |docs| && p.productRef == Some(docs[j].id)
    ensures var q := UpdateReferenced(docs, p, ReleasePatch(false))[j];
            q.status == Available && q.reservedUntil.None? && q.reservationId.None?
            && q.reservedBy == docs[j].reservedBy && q.isAvailable == docs[j].isAvailable
  {
    UpdateReferencedAt(docs, p, ReleasePatch(false), j);
  }

  // ---------------------------------------------------------------------------
  // GET /stats

  /** `countDocuments({ status: s })`. */
  function CountStatus(docs: seq<Payment>, s: PayStatus): nat
    decreases |docs|
  {
    if |docs| == 0 then 0
    else CountStatus(docs[..|docs| - 1], s) + (if docs[|docs| - 1].status == s then 1 else 0)
  }

  /** `$sum: '$amount'` over the verified payments. */
  function VerifiedRevenue(docs: seq<Payment>): int
    decreases |docs|
  {
    if |docs| == 0 then 0
    else VerifiedRevenue(docs[..|docs| - 1]) + (if docs[|docs| - 1].status == Verified then docs[|docs| - 1].amount else 0)
  }

  datatype Summary = Summary(pending: nat, verified: nat, failed: nat, expired: nat, total: nat, revenue: int)

  function Stats(docs: seq<Payment>): (r: Summary)
    ensures r.total == r.pending + r.verified + r.failed + r.expired
  {
    var pending, verified := CountStatus(docs, Pending), CountStatus(docs, Verified);
    var failed, expired := CountStatus(docs, Failed), CountStatus(docs, Expired);
    Summary(pending, verified, failed, expired, pending + verified + failed + expired, VerifiedRevenue(docs))
  }

  /** The four status counts partition the collection, so the summary's
      total is the number of payments. */
  lemma {:induction false} StatsTotalIsCount(docs: seq<Payment>)
    ensures Stats(docs).total == |docs|
    decreases |docs|
  {
    if |docs| > 0 {
      StatsTotalIsCount(docs[..|docs| - 1]);
    }
  }

  /** The revenue is never negative when no verified payment has a negative
      amount. */
  lemma {:induction false} RevenueNonNegative(docs: seq<Payment>)
    requires forall j :: 0 <= j < |docs| && docs[j].status == Verified ==> docs[j].amount >= 0
    ensures Stats(docs).revenue >= 0
    decreases |docs|
  {
    if |docs| > 0 {
      RevenueNonNegative(docs[..|docs| - 1]);
    }
  }

  // ---------------------------------------------------------------------------
  // Pagination of GET /pending and GET /all

  /** `Math.ceil(total / limit)`. A non-positive limit gives no page count
      (the division yields Infinity, NaN or a negative number). */
  function TotalPages(total: nat, limit: int): (r: Option<nat>)
    ensures limit > 0 ==> r.Some? && (r.value - 1) * limit < total <= r.value * limit
    ensures limit <= 0 ==> r.None?
  {
    if limit <= 0 then None else
      var c := CeilDiv(total, limit);
      assert c >= 0;
      Some(c)
  }

  /** `.skip((page - 1) * limit).limit(limit)` on an already sorted list. A
      limit of 0 is MongoDB's "no limit", and the skip is then 0 as well. */
  function PageOf<T>(xs: seq<T>, page: nat, limit: nat): (r: seq<T>)
    requires page >= 1
    ensures limit > 0 ==> |r| <= limit
    ensures limit == 0 ==> r == xs
  {
    if limit == 0 then xs else
    var from := (page - 1) * limit;
    if from >= |xs| then [] else xs[from..if from + limit <= |xs| then from + limit else |xs|]
  }

  /** Position `off` of page `page` is element `(page - 1) * limit + off`. */
  lemma PageOfAt<T>(xs: seq<T>, page: nat, limit: nat, off: nat)
    requires page >= 1 && off < limit && (page - 1) * limit + off < |xs|
    ensures off < |PageOf(xs, page, limit)| && PageOf(xs, page, limit)[off] == xs[(page - 1) * limit + off]
  {
  }

  /** Every listed element is on one of the pages 1 to totalPages: element
      `i` is at position `i % limit` of page `i / limit + 1`. */
  lemma EveryItemOnOnePage<T>(xs: seq<T>, limit: nat, i: nat)
    requires limit > 0 && i < |xs|
    ensures i / limit + 1 <= TotalPages(|xs|, limit).value
    ensures var r := PageOf(xs, i / limit + 1, limit); i % limit < |r| && r[i % limit] == xs[i]
  {
    var q, off := i / limit, i % limit;
    assert i == q * limit + off;
    var n := TotalPages(|xs|, limit).value;
    if q + 1 > n {
      MulMonotone(n, q, limit);
    }
    assert (q + 1 - 1) * limit + off == i;
    PageOfAt(xs, q + 1, limit, off);
  }

  lemma MulMonotone(a: nat, b: nat, c: nat)
    requires a <= b
    ensures a * c <= b * c
  {
  }
}
