/** The manual-payment flow: claim a unique item for fifteen minutes after
    lazily expiring a lapsed hold, record a pending payment, then accept the
    buyer's UPI or bank-transfer proof and mark the item sold; plus the cart
    variants of both steps. */
module ManualPayments {
  import opened Common
  import opened Products
  import opened Payments

  /** How long a manual claim holds an item. */
  const HoldMinutes: int := 15

  /** The shape of the order id the claim handlers generate: "GZ", the clock
      in decimal and random base-36 digits, upper-cased. Only its prefix
      matters here: it is never empty. */
  predicate IsClaimOrderId(s: string) {
    |s| > 2 && s[..2] == "GZ"
  }

  /** What a handler answers, by kind. */
  datatype Reply =
    | ReservedFor(orderId: string, expiresAt: int)
    | ProductNotFound
    | SoldOut
    | HeldByAnother(minutesLeft: int, until: int)
    | OrderNotFound
    | AlreadyResolved(status: PayStatus)
    | ReservationLapsed
    | ProofRejected(why: ProofCheck)
    | Submitted(orderId: string, nextSteps: seq<string>)
    | EmptyRequest
    | CartReserved(orderIds: seq<string>, expiresAt: int, subtotal: int, grandTotal: int)
    | LineNotFound(line: nat)
    | LineSoldOut(line: nat)
    | LineHeldByAnother(line: nat, minutesLeft: int, until: int)
    | LineSaveFailed(line: nat)
    | CartSubmitted(orderIds: seq<string>, nextSteps: seq<string>)
    | SaveFailed

  // ---------------------------------------------------------------------------
  // Payment proof

  /** `/^[A-Z0-9]{8,20}$/i`: a UPI transaction id. */
  predicate IsUpiTransactionId(s: string) {
    8 <= |s| <= 20 && forall i :: 0 <= i < |s| ==> IsAsciiAlnum(s[i])
  }

  /** `/^[A-Z0-9]{6,30}$/i`: a bank reference number. */
  predicate IsBankReference(s: string) {
    6 <= |s| <= 30 && forall i :: 0 <= i < |s| ==> IsAsciiAlnum(s[i])
  }

  /** Every well-formed UPI transaction id would also pass as a bank reference. */
  lemma UpiIdsAreBankReferences(s: string)
    requires IsUpiTransactionId(s)
    ensures IsBankReference(s)
  {
  }

  /** A string that either validator accepts has no surrounding white space,
      so trimming it first changes nothing. */
  lemma AcceptedProofIsTrimmed(s: string)
    requires IsBankReference(s)
    ensures Trim(s) == s
  {
    assert !IsJsSpace(s[0]) && !IsJsSpace(s[|s| - 1]);
    TrimOfTrimmed(s);
  }

  datatype ProofCheck = ProofOk | MissingUpi | MissingBankRef | BadUpiFormat | BadBankRefFormat

  /** The presence checks: the proof field of the chosen method must be a
      non-empty string. */
  function RequireProof(m: Method, d: ProofDetails): (r: ProofCheck)
    ensures r == ProofOk <==> ProofFieldsPresent(m, d)
    ensures r != ProofOk ==> (r == MissingUpi && m == Upi) || (r == MissingBankRef && m == BankTransfer)
  {
    if m == Upi && !Filled(d.upiTransactionId) then MissingUpi
    else if m == BankTransfer && !Filled(d.bankReferenceNumber) then MissingBankRef
    else ProofOk
  }

  /** The presence checks, then the format of the trimmed proof field. */
  function CheckProof(m: Method, d: ProofDetails): (r: ProofCheck)
    ensures r == ProofOk <==>
              (m == Upi ==> Filled(d.upiTransactionId) && IsUpiTransactionId(Trim(d.upiTransactionId.value)))
              && (m == BankTransfer ==> Filled(d.bankReferenceNumber)
                                        && IsBankReference(Trim(d.bankReferenceNumber.value)))
    ensures RequireProof(m, d) != ProofOk ==> r == RequireProof(m, d)
  {
    if RequireProof(m, d) != ProofOk then RequireProof(m, d)
    else if m == Upi && !IsUpiTransactionId(Trim(d.upiTransactionId.value)) then BadUpiFormat
    else if m == BankTransfer && !IsBankReference(Trim(d.bankReferenceNumber.value)) then BadBankRefFormat
    else ProofOk
  }

  /** A proof that passes the handler's checks satisfies the schema's
      conditional `required`, so recording it on a valid pending payment fails
      validation only for a method outside the enum. */
  lemma AcceptedProofSaves(p: Payment, m: Method, d: ProofDetails, s: PayStatus)
    requires PassesValidation(p) && RequireProof(m, d) == ProofOk
    ensures PassesValidation(p.(paymentMethod := m, details := d, status := s)) <==> !m.OtherMethod?
  {
  }

  /** `getNextSteps(paymentMethod)`: the instructions shown for each method;
      none for any other value. */
  function NextSteps(m: Method): (r: seq<string>)
    ensures m == Upi ==> |r| == 4
    ensures m == BankTransfer ==> |r| == 6
    ensures m != Upi && m != BankTransfer ==> r == []
  {
    match m
    case Upi => [
      "Make payment to our UPI ID: your-business@upi",
      "Enter the transaction ID in the form",
      "Our team will verify within 1-2 hours",
      "You will receive confirmation email"]
    case BankTransfer => [
      "Transfer amount to our bank account",
      "Account: YOUR_BUSINESS_NAME",
      "Account No: XXXX XXXX XXXX",
      "IFSC: XXXXXXXXXXX",
      "Enter reference number in the form",
      "Our team will verify within 2-4 hours"]
    case _ => []
  }

  /** The product query a settlement step derives from a payment: its
      ObjectId reference, else its `productId` string, else none. */
  function ProductTarget(p: Payment): (q: Option<Query>)
    ensures p.productRef.Some? ==> q == Some(ById(p.productRef.value))
    ensures p.productRef.None? && p.productIdString.Some? ==> q == Some(ByProductId(p.productIdString.value))
    ensures p.productRef.None? && p.productIdString.None? ==> q.None?
  {
    if p.productRef.Some? then Some(ById(p.productRef.value))
    else if p.productIdString.Some? then Some(ByProductId(p.productIdString.value))
    else None
  }

  /** The store after `updateOne(target, { $set: u })`, or unchanged without a target. */
  function UpdateTarget(docs: seq<Product>, q: Option<Query>, u: Patch): (r: seq<Product>)
    ensures SameKeys(docs, r)
    ensures q.None? ==> r == docs
  {
    if q.Some? then UpdateFirst(docs, q.value, u) else docs
  }

  /** With the intended target, a payment that references a record by its
      `_id` marks exactly that record sold, with the hold cleared, and leaves
      every other record as it was. */
  lemma ProductTargetMarksReferenceSold(docs: seq<Product>, p: Payment, i: nat)
    requires ValidDocs(docs) && i < |docs| && p.productRef == Some(docs[i].id)
    ensures var r := UpdateTarget(docs, ProductTarget(p), SoldPatch(true));
            |r| == |docs| && r[i] == Apply(docs[i], SoldPatch(true))
            && r[i].status == Sold && r[i].reservedBy.None? && r[i].reservationId.None?
            && forall j :: 0 <= j < |docs| && j != i ==> r[j] == docs[j]
  {
    FindFirstUnique(docs, i);
  }

  /** The sold filter of POST /submit-payment-details as the handler builds
      it. `populate('productId')` has replaced a reference that names a
      record by the record itself, whose `toString()` is not 24-hex, so the
      filter compares `productId` with `productIdString` or, without one,
      with the record cast to a string, which names no record. A reference
      that names no record is populated to `null`, and again only
      `productIdString` is tried. Either way the reference is never used. */
  function PopulatedSoldTarget(p: Payment): (q: Option<Query>)
    ensures q.Some? <==> p.productIdString.Some?
    ensures q.Some? ==> q.value.ByProductId? && q.value.pid == p.productIdString.value
  {
    if p.productIdString.Some? then Some(ByProductId(p.productIdString.value)) else None
  }

  /** A payment that references a held record by `_id` and carries no
      `productIdString` (every payment the handlers store with a reference):
      the handler's filter leaves the store as it was, so the record stays
      reserved, while the intended target marks it sold. */
  lemma PopulatedSoldTargetMissesReference(docs: seq<Product>, p: Payment, i: nat)
    requires ValidDocs(docs) && i < |docs|
    requires p.productRef == Some(docs[i].id) && p.productIdString.None?
    requires docs[i].status == Reserved
    ensures UpdateTarget(docs, PopulatedSoldTarget(p), SoldPatch(true)) == docs
    ensures UpdateTarget(docs, PopulatedSoldTarget(p), SoldPatch(true))[i].status == Reserved
    ensures UpdateTarget(docs, ProductTarget(p), SoldPatch(true))[i].status == Sold
  {
    ProductTargetMarksReferenceSold(docs, p, i);
  }

  // ---------------------------------------------------------------------------
  // Finding the product and deciding the claim

  /** The claim handlers' lookup: a 24-hex id is tried as `_id` first and then
      as `productId`; any other id only as `productId`. */
  function LocateProduct(docs: seq<Product>, s: string): (r: Option<nat>)
    ensures r.Some? ==> r.value < |docs|
  {
    match FindByIdText(docs, s)
    case Some(i) => Some(i)
    case None => FindFirst(docs, ByProductId(s))
  }

  /** The record found is one the id names, the `_id` match is preferred, and
      nothing is found only when neither query matches. */
  lemma LocateProductCases(docs: seq<Product>, s: string)
    ensures var r := LocateProduct(docs, s);
            (r.Some? ==> ((IsObjectIdHex(s) && docs[r.value].id == NativeId(ToLowerAscii(s)))
                          || docs[r.value].productId == s))
            && (FindByIdText(docs, s).Some? ==> r == FindByIdText(docs, s))
            && (r.None? <==> FindByIdText(docs, s).None? && FindFirst(docs, ByProductId(s)).None?)
  {
  }

  lemma LocateSameKeys(a: seq<Product>, b: seq<Product>, s: string)
    requires SameKeys(a, b)
    ensures LocateProduct(a, s) == LocateProduct(b, s)
  {
    FindFirstSameKeys(a, b, ById(NativeId(ToLowerAscii(s))));
    FindFirstSameKeys(a, b, ByProductId(s));
  }

  /** The claim handlers' expiry test: a reserved record whose deadline is at
      or before `now`. (The model's sweep and the availability view use a
      strict `<` instead.) */
  predicate LapsedAt(p: Product, now: int) {
    p.status == Reserved && p.reservedUntil.Some? && p.reservedUntil.value <= now
  }

  /** The record after lazy normalisation: a lapsed hold is released with all
      four reservation fields cleared; anything else is left as it is. */
  function Normalised(p: Product, now: int): (r: Product)
    ensures !LapsedAt(r, now)
    ensures r.id == p.id && r.productId == p.productId && r.price == p.price
    ensures LapsedAt(p, now) ==> r.status == Available && r.reservedUntil.None?
                                 && r.reservationId.None? && r.reservedBy.None?
                                 && r.isAvailable == p.isAvailable
    ensures !LapsedAt(p, now) ==> r == p
  {
    if LapsedAt(p, now) then Apply(p, ReleasePatch(true)) else p
  }

  datatype Verdict = Claim | RefuseSold | RefuseHeld(minutesLeft: int, until: int)

  /** The two refusals after normalisation: a sold item, and an unexpired hold
      by somebody else, reported with the whole minutes left rounded up. */
  function ClaimVerdict(p: Product, user: UserId, now: int): (v: Verdict)
    ensures v == RefuseSold <==> p.status == Sold
    ensures v.RefuseHeld? <==> p.status == Reserved && p.reservedUntil.Some?
                               && p.reservedUntil.value > now && p.reservedBy != Some(user)
    ensures v.RefuseHeld? ==> v.until == p.reservedUntil.value && v.minutesLeft >= 1
                              && (v.minutesLeft - 1) * MinuteMs < v.until - now <= v.minutesLeft * MinuteMs
  {
    if p.status == Sold then RefuseSold
    else if p.status == Reserved && p.reservedUntil.Some? && p.reservedUntil.value > now
            && p.reservedBy != Some(user) then
      RefuseHeld(CeilDiv(p.reservedUntil.value - now, MinuteMs), p.reservedUntil.value)
    else Claim
  }

  /** A lapsed hold never blocks a claim, whoever held it: normalisation makes
      the record available first. */
  lemma LapsedHoldIsClaimable(p: Product, user: UserId, now: int)
    requires LapsedAt(p, now)
    ensures ClaimVerdict(Normalised(p, now), user, now) == Claim
  {
  }

  /** The holder of an unexpired hold may claim again; a sold item is refused
      to everybody; and a refusal for somebody else's hold happens only on a
      record that normalisation left as it was. */
  lemma ClaimVerdictCases(p: Product, user: UserId, now: int)
    ensures p.status == Reserved && p.reservedBy == Some(user) ==> ClaimVerdict(Normalised(p, now), user, now) == Claim
    ensures p.status == Sold ==> ClaimVerdict(Normalised(p, now), user, now) == RefuseSold
    ensures ClaimVerdict(Normalised(p, now), user, now).RefuseHeld? ==> Normalised(p, now) == p
    ensures p.status == Available || p.status == OutOfStock ==> ClaimVerdict(Normalised(p, now), user, now) == Claim
  {
  }

  /** The record a claim leaves: reserved to `user` until `expires` under
      `orderId`, whatever the claimed record's reservation fields were. */
  function Claimed(p: Product, expires: int, orderId: string, user: UserId): (r: Product)
    ensures r.status == Reserved && r.reservedUntil == Some(expires)
    ensures r.reservationId == Some(orderId) && r.reservedBy == Some(user)
    ensures r.(status := p.status, reservedUntil := p.reservedUntil, reservationId := p.reservationId,
               reservedBy := p.reservedBy) == p
  {
    Apply(p, ReservePatch(expires, orderId, SetHolder(Some(user))))
  }

  /** Normalising before claiming makes no difference to the claimed record. */
  lemma ClaimOverwritesNormalisation(p: Product, now: int, expires: int, orderId: string, user: UserId)
    ensures Claimed(Normalised(p, now), expires, orderId, user) == Claimed(p, expires, orderId, user)
  {
  }

  /** Re-entry by the holder is a fresh claim: the new reservation id and
      deadline replace the old ones. */
  lemma ReentryIssuesNewReservation(p: Product, user: UserId, now: int, orderId: string)
    requires p.status == Reserved && p.reservedBy == Some(user) && p.reservationId != Some(orderId)
    ensures ClaimVerdict(Normalised(p, now), user, now) == Claim
    ensures Claimed(p, now + HoldMinutes * MinuteMs, orderId, user).reservationId != p.reservationId
    ensures IsReservedAt(Claimed(p, now + HoldMinutes * MinuteMs, orderId, user), now)
  {
  }

  // ---------------------------------------------------------------------------
  // Writing one record through its update query

  /** `updateOne(updateQuery, { $set: u })` followed by `findOne(updateQuery)`,
      with the query built from the record at position `i`. */
  method UpdateRecord(products: ProductCollection, i: nat, u: Patch) returns (refreshed: Product)
    requires products.Valid() && i < |products.docs|
    modifies products
    ensures products.Valid()
    ensures products.docs == old(products.docs)[i := Apply(old(products.docs)[i], u)]
    ensures refreshed == products.docs[i]
  {
    UpdateQueryTargetsRecord(products.docs, i);
    var q := UpdateQueryFor(products.docs[i]);
    var matched := products.UpdateOne(q, u);
    UpdateQueryTargetsRecord(products.docs, i);
    refreshed := products.docs[FindFirst(products.docs, q).value];
  }

  /** The lookup, lazy normalisation and verdict the three claim handlers
      share; on a claim the record is reserved to `user`. `located` is the
      position found, and the verdict is the one reached. */
  method ClaimProduct(products: ProductCollection, productId: string, user: UserId, now: int,
                      orderId: string, expires: int)
    returns (located: Option<nat>, verdict: Verdict)
    requires products.Valid()
    modifies products
    ensures products.Valid() && SameKeys(old(products.docs), products.docs)
    ensures located == LocateProduct(old(products.docs), productId)
    ensures located.None? ==> products.docs == old(products.docs)
    ensures located.Some? ==>
              var i := located.value;
              var n := Normalised(old(products.docs)[i], now);
              verdict == ClaimVerdict(n, user, now)
              && (verdict == RefuseSold ==> products.docs == old(products.docs)[i := n])
              && (verdict.RefuseHeld? ==> products.docs == old(products.docs))
              && (verdict == Claim ==>
                    products.docs == old(products.docs)[i := Claimed(old(products.docs)[i], expires, orderId, user)])
  {
    located := LocateProduct(products.docs, productId);
    verdict := Claim;
    if located.None? {
      return;
    }
    var i := located.value;
    var product := products.docs[i];
    if LapsedAt(product, now) {
      product := UpdateRecord(products, i, ReleasePatch(true));
    }
    verdict := ClaimVerdict(product, user, now);
    if verdict == Claim {
      product := UpdateRecord(products, i, ReservePatch(expires, orderId, SetHolder(Some(user))));
    }
  }

  // ---------------------------------------------------------------------------
  // POST /reserve

  /** POST /reserve. The payment it tries to record has no customer details,
      so schema validation always rejects it; the error is swallowed and the
      claim stands. */
  method Reserve(products: ProductCollection, payments: PaymentCollection, productId: string,
                 user: UserId, now: int, orderId: string) returns (reply: Reply)
    requires products.Valid() && payments.Valid() && IsClaimOrderId(orderId)
    modifies products, payments
    ensures products.Valid() && payments.Valid()
    ensures payments.docs == old(payments.docs)
    ensures match LocateProduct(old(products.docs), productId)
            case None => reply == ProductNotFound && products.docs == old(products.docs)
            case Some(i) =>
              var p := old(products.docs)[i];
              var expires := now + HoldMinutes * MinuteMs;
              match ClaimVerdict(Normalised(p, now), user, now)
              case RefuseSold =>
                reply == SoldOut && products.docs == old(products.docs)[i := Normalised(p, now)]
              case RefuseHeld(m, u) =>
                reply == HeldByAnother(m, u) && products.docs == old(products.docs)
              case Claim =>
                reply == ReservedFor(orderId, expires)
                && products.docs == old(products.docs)[i := Claimed(p, expires, orderId, user)]
  {
    var expires := now + HoldMinutes * MinuteMs;
    var located, verdict := ClaimProduct(products, productId, user, now, orderId, expires);
    if located.None? {
      return ProductNotFound;
    }
    match verdict {
      case RefuseSold =>
        return SoldOut;
      case RefuseHeld(m, u) =>
        return HeldByAnother(m, u);
      case Claim =>
    }
    var product := products.docs[located.value];
    var payment := NewPayment(orderId, Some(product.id), None, user, None, product.price, expires);
    var saved := payments.Insert(payment);
    reply := ReservedFor(orderId, expires);
  }

  // ---------------------------------------------------------------------------
  // POST /submit-form-and-reserve

  /** Position of the first record whose `_id` is an ObjectId. */
  function FirstNativeRecord(docs: seq<Product>): (r: Option<nat>)
    ensures r.Some? ==> r.value < |docs| && docs[r.value].id.NativeId?
    ensures r.None? <==> forall j :: 0 <= j < |docs| ==> !docs[j].id.NativeId?
  {
    IndexWhere(docs, (p: Product) => p.id.NativeId?)
  }

  /** The reference the form handler records on the payment for the record at
      `i`: its own ObjectId; for a custom `_id`, the ObjectId of the record
      found again by `productId` if it has one, else the first record in the
      store with an ObjectId as a placeholder; and only when the store has
      none, the `productId` string instead. */
  function PaymentReference(docs: seq<Product>, i: nat): (r: (Option<Key>, Option<string>))
    requires i < |docs|
    ensures r.0.Some? ==> r.0.value.NativeId? && r.1.None?
    ensures r.0.None? ==> r.1 == Some(docs[i].productId)
    ensures docs[i].id.NativeId? ==> r.0 == Some(docs[i].id)
  {
    if docs[i].id.NativeId? then (Some(docs[i].id), None)
    else
      var again := FindFirst(docs, ByProductId(docs[i].productId));
      if again.Some? && docs[again.value].id.NativeId? then (Some(docs[again.value].id), None)
      else
        match FirstNativeRecord(docs)
        case Some(j) => (Some(docs[j].id), None)
        case None => (None, Some(docs[i].productId))
  }

  /** For a record with a custom `_id` in a store that also holds ObjectId
      records, the recorded reference names a different record: the
      placeholder, not the item that was claimed. */
  lemma PlaceholderNamesAnotherRecord(docs: seq<Product>, i: nat)
    requires ValidDocs(docs) && i < |docs| && docs[i].id.CustomId?
    requires exists j :: 0 <= j < |docs| && docs[j].id.NativeId?
    ensures var r := PaymentReference(docs, i);
            r.0.Some? && FindFirst(docs, ById(r.0.value)).Some?
            && FindFirst(docs, ById(r.0.value)).value != i
            && FindFirst(docs, ById(r.0.value)) == FirstNativeRecord(docs)
  {
    FindFirstUnique(docs, i);
    var j := FirstNativeRecord(docs).value;
    FindFirstUnique(docs, j);
  }

  /** POST /submit-form-and-reserve: the claim of /reserve, then a payment
      carrying the customer details; when that payment cannot be saved, the
      record is released again (holder cleared) and the handler fails. */
  method SubmitFormAndReserve(products: ProductCollection, payments: PaymentCollection,
                              productId: string, customer: Option<Customer>,
                              user: UserId, now: int, orderId: string) returns (reply: Reply)
    requires products.Valid() && payments.Valid() && IsClaimOrderId(orderId)
    modifies products, payments
    ensures products.Valid() && payments.Valid()
    ensures match LocateProduct(old(products.docs), productId)
            case None => reply == ProductNotFound && products.docs == old(products.docs)
                         && payments.docs == old(payments.docs)
            case Some(i) =>
              var p := old(products.docs)[i];
              var expires := now + HoldMinutes * MinuteMs;
              var saves := CustomerComplete(customer) && FreshOrderId(old(payments.docs), orderId);
              match ClaimVerdict(Normalised(p, now), user, now)
              case RefuseSold =>
                reply == SoldOut && products.docs == old(products.docs)[i := Normalised(p, now)]
                && payments.docs == old(payments.docs)
              case RefuseHeld(m, u) =>
                reply == HeldByAnother(m, u) && products.docs == old(products.docs)
                && payments.docs == old(payments.docs)
              case Claim =>
                var ref := PaymentReference(old(products.docs), i);
                (saves ==> reply == ReservedFor(orderId, expires)
                           && products.docs == old(products.docs)[i := Claimed(p, expires, orderId, user)]
                           && payments.docs == old(payments.docs)
                                               + [NewPayment(orderId, ref.0, ref.1, user, customer, p.price, expires)])
                && (!saves ==> reply == SaveFailed
                               && products.docs == old(products.docs)[i := Apply(Claimed(p, expires, orderId, user), ReleasePatch(true))]
                               && payments.docs == old(payments.docs))
  {
    var expires := now + HoldMinutes * MinuteMs;
    var located, verdict := ClaimProduct(products, productId, user, now, orderId, expires);
    if located.None? {
      return ProductNotFound;
    }
    match verdict {
      case RefuseSold =>
        return SoldOut;
      case RefuseHeld(m, u) =>
        return HeldByAnother(m, u);
      case Claim =>
    }
    PaymentReferenceSameKeys(old(products.docs), products.docs, located.value);
    reply := RecordFormPayment(products, payments, located.value, orderId, customer, user, expires);
  }

  lemma PaymentReferenceSameKeys(a: seq<Product>, b: seq<Product>, i: nat)
    requires SameKeys(a, b) && i < |a|
    ensures PaymentReference(a, i) == PaymentReference(b, i)
  {
    FindFirstSameKeys(a, b, ByProductId(a[i].productId));
    IndexWhereCongruent(a, (p: Product) => p.id.NativeId?, b, (p: Product) => p.id.NativeId?);
  }

  /** The second half of the form handler, on the just-claimed record at `i`:
      record the payment, or release the record when it cannot be saved. */
  method RecordFormPayment(products: ProductCollection, payments: PaymentCollection, i: nat,
                           orderId: string, customer: Option<Customer>, user: UserId, expires: int)
    returns (reply: Reply)
    requires products.Valid() && payments.Valid() && i < |products.docs| && IsClaimOrderId(orderId)
    modifies products, payments
    ensures products.Valid() && payments.Valid()
    ensures var ref := PaymentReference(old(products.docs), i);
            var p := old(products.docs)[i];
            if CustomerComplete(customer) && FreshOrderId(old(payments.docs), orderId) then
              reply == ReservedFor(orderId, expires) && products.docs == old(products.docs)
              && payments.docs == old(payments.docs) + [NewPayment(orderId, ref.0, ref.1, user, customer, p.price, expires)]
            else
              reply == SaveFailed && payments.docs == old(payments.docs)
              && products.docs == old(products.docs)[i := Apply(p, ReleasePatch(true))]
  {
    var product := products.docs[i];
    var ref := PaymentReference(products.docs, i);
    var payment := NewPayment(orderId, ref.0, ref.1, user, customer, product.price, expires);
    var saved := payments.Insert(payment);
    if !saved {
      product := UpdateRecord(products, i, ReleasePatch(true));
      return SaveFailed;
    }
    reply := ReservedFor(orderId, expires);
  }

  // ---------------------------------------------------------------------------
  // POST /submit-payment-details

  /** Updates the product a payment names, when it names one. */
  method UpdateTargetOf(products: ProductCollection, p: Payment, u: Patch)
    requires products.Valid()
    modifies products
    ensures products.Valid()
    ensures products.docs == UpdateTarget(old(products.docs), ProductTarget(p), u)
  {
    var target := ProductTarget(p);
    if target.Some? {
      var matched := products.UpdateOne(target.value, u);
    }
  }

  /** POST /submit-payment-details: the caller's pending payment, if its hold
      is still valid, takes the checked proof, becomes verified, and its
      product is marked sold; a lapsed one becomes expired and its product is
      released, whoever holds it now. */
  method SubmitPaymentDetails(products: ProductCollection, payments: PaymentCollection,
                              orderId: string, user: UserId, now: int,
                              m: Method, d: ProofDetails) returns (reply: Reply)
    requires products.Valid() && payments.Valid()
    modifies products, payments
    ensures products.Valid() && payments.Valid()
    ensures match FindPayment(old(payments.docs), orderId, user)
            case None =>
              reply == OrderNotFound
              && products.docs == old(products.docs) && payments.docs == old(payments.docs)
            case Some(k) =>
              var p := old(payments.docs)[k];
              if p.status != Pending then
                reply == AlreadyResolved(p.status)
                && products.docs == old(products.docs) && payments.docs == old(payments.docs)
              else if !IsReservationValid(p, now) then
                reply == ReservationLapsed
                && payments.docs == old(payments.docs)[k := p.(status := Expired)]
                && products.docs == UpdateTarget(old(products.docs), ProductTarget(p), ReleasePatch(true))
              else if CheckProof(m, d) != ProofOk then
                reply == ProofRejected(CheckProof(m, d))
                && products.docs == old(products.docs) && payments.docs == old(payments.docs)
              else if m.OtherMethod? then
                reply == SaveFailed
                && products.docs == old(products.docs) && payments.docs == old(payments.docs)
              else
                reply == Submitted(orderId, NextSteps(m))
                && payments.docs == old(payments.docs)[k := p.(paymentMethod := m, details := d, status := Verified)]
                && products.docs == UpdateTarget(old(products.docs), ProductTarget(p), SoldPatch(true))
  {
    var found := FindPayment(payments.docs, orderId, user);
    if found.None? {
      return OrderNotFound;
    }
    var k := found.value;
    var payment := payments.docs[k];
    if payment.status != Pending {
      return AlreadyResolved(payment.status);
    }
    if !IsReservationValid(payment, now) {
      StatusChangeKeepsValidation(payment, Expired, payment.adminNotes, payment.verifiedBy, payment.verifiedAt);
      var saved := payments.Save(k, payment.(status := Expired));
      UpdateTargetOf(products, payment, ReleasePatch(true));
      return ReservationLapsed;
    }
    var check := CheckProof(m, d);
    if check != ProofOk {
      return ProofRejected(check);
    }
    AcceptedProofSaves(payment, m, d, Verified);
    var saved := payments.Save(k, payment.(paymentMethod := m, details := d, status := Verified));
    if !saved {
      return SaveFailed;
    }
    UpdateTargetOf(products, payment, SoldPatch(true));
    reply := Submitted(orderId, NextSteps(m));
  }

  // ---------------------------------------------------------------------------
  // POST /submit-details (the older single-step endpoint)

  /** In a valid store the record found again by `productId` is the record
      itself, so the reference is always the record's own `_id`, custom or not. */
  lemma ObjectIdReferenceIsOwnId(docs: seq<Product>, i: nat)
    requires ValidDocs(docs) && i < |docs|
    ensures ObjectIdReference(docs, i) == docs[i].id
  {
    FindFirstUnique(docs, i);
  }

  /** The reference the older endpoint and the cart handler record: the
      record's `_id`, or the ObjectId of the record found again by its
      `productId`, when that one has an ObjectId. */
  function ObjectIdReference(docs: seq<Product>, i: nat): (r: Key)
    requires i < |docs|
    ensures docs[i].id.NativeId? ==> r == docs[i].id
  {
    if docs[i].id.NativeId? then docs[i].id
    else
      var again := FindFirst(docs, ByProductId(docs[i].productId));
      if again.Some? && docs[again.value].id.NativeId? then docs[again.value].id else docs[i].id
  }

  /** POST /submit-details. Without a stored payment it tries to create one
      from the product, but that payment has no customer details and never
      passes validation. With one, it records the customer details, method and
      proof (presence checked, format not) and leaves the payment pending. A
      lapsed payment is expired and its product released, holder kept. */
  method SubmitDetails(products: ProductCollection, payments: PaymentCollection,
                       orderId: string, productId: string, user: UserId, now: int,
                       customer: Option<Customer>, m: Method, d: ProofDetails) returns (reply: Reply)
    requires products.Valid() && payments.Valid()
    modifies products, payments
    ensures products.Valid() && payments.Valid()
    ensures match FindPayment(old(payments.docs), orderId, user)
            case None =>
              reply == (if FindByKeyText(old(products.docs), productId).None? then ProductNotFound else SaveFailed)
              && products.docs == old(products.docs) && payments.docs == old(payments.docs)
            case Some(k) =>
              var p := old(payments.docs)[k];
              var recorded := p.(customer := customer, paymentMethod := m, details := d);
              if p.status != Pending then
                reply == AlreadyResolved(p.status)
                && products.docs == old(products.docs) && payments.docs == old(payments.docs)
              else if !IsReservationValid(p, now) then
                reply == ReservationLapsed
                && payments.docs == old(payments.docs)[k := p.(status := Expired)]
                && products.docs == (if p.productRef.Some?
                                     then UpdateFirst(old(products.docs), ById(p.productRef.value), ReleasePatch(false))
                                     else old(products.docs))
              else if RequireProof(m, d) != ProofOk then
                reply == ProofRejected(RequireProof(m, d))
                && products.docs == old(products.docs) && payments.docs == old(payments.docs)
              else
                products.docs == old(products.docs)
                && (PassesValidation(recorded) ==> reply == Submitted(orderId, NextSteps(m))
                                                   && payments.docs == old(payments.docs)[k := recorded])
                && (!PassesValidation(recorded) ==> reply == SaveFailed && payments.docs == old(payments.docs))
  {
    var found := FindPayment(payments.docs, orderId, user);
    if found.None? {
      var located := FindByKeyText(products.docs, productId);
      if located.None? {
        return ProductNotFound;
      }
      var product := products.docs[located.value];
      var expires := if product.reservedUntil.Some? then product.reservedUntil.value
                     else now + HoldMinutes * MinuteMs;
      var created := NewPayment(orderId, Some(ObjectIdReference(products.docs, located.value)), None,
                                user, None, product.price, expires);
      var saved := payments.Insert(created);
      return SaveFailed;
    }
    var k := found.value;
    var payment := payments.docs[k];
    if payment.status != Pending {
      return AlreadyResolved(payment.status);
    }
    if !IsReservationValid(payment, now) {
      StatusChangeKeepsValidation(payment, Expired, payment.adminNotes, payment.verifiedBy, payment.verifiedAt);
      var saved := payments.Save(k, payment.(status := Expired));
      if payment.productRef.Some? {
        var matched := products.UpdateOne(ById(payment.productRef.value), ReleasePatch(false));
      }
      return ReservationLapsed;
    }
    var check := RequireProof(m, d);
    if check != ProofOk {
      return ProofRejected(check);
    }
    var saved := payments.Save(k, payment.(customer := customer, paymentMethod := m, details := d));
    if !saved {
      return SaveFailed;
    }
    reply := Submitted(orderId, NextSteps(m));
  }

  // ---------------------------------------------------------------------------
  // POST /submit-cart-and-reserve

  /** One requested cart line; an absent quantity is 0. */
  datatype RequestLine = RequestLine(productId: string, name: string, quantity: int)

  /** `cartItem.quantity || 1`. */
  function Units(q: int): (r: int)
    ensures q != 0 ==> r == q
    ensures r != 0
  {
    if q == 0 then 1 else q
  }

  /** Held by `user` under the cart's shared deadline. */
  predicate HeldBy(p: Product, user: UserId, expires: int) {
    p.status == Reserved && p.reservedUntil == Some(expires) && p.reservedBy == Some(user)
  }

  /** The record each line names in the store as the request found it. */
  function Locations(docs: seq<Product>, lines: seq<RequestLine>): (r: seq<Option<nat>>)
    ensures |r| == |lines|
  {
    if |lines| == 0 then []
    else Locations(docs, lines[..|lines| - 1]) + [LocateProduct(docs, lines[|lines| - 1].productId)]
  }

  /** Line `l` names what the claim handlers' lookup finds for its id. */
  lemma {:induction false} LocationsAt(docs: seq<Product>, lines: seq<RequestLine>, l: nat)
    requires l < |lines|
    ensures Locations(docs, lines)[l] == LocateProduct(docs, lines[l].productId)
    decreases |lines|
  {
    if l < |lines| - 1 {
      LocationsAt(docs, lines[..|lines| - 1], l);
    }
  }

  /** Each of the first `k` lines names a record. */
  predicate LocatedUpTo(locs: seq<Option<nat>>, k: nat)
    requires k <= |locs|
  {
    forall l :: 0 <= l < k ==> locs[l].Some?
  }

  /** The positions of the records the first `k` lines name. */
  function Named(locs: seq<Option<nat>>, k: nat): set<nat>
    requires k <= |locs|
  {
    if k == 0 then {}
    else Named(locs, k - 1) + (if locs[k - 1].Some? then {locs[k - 1].value} else {})
  }

  lemma {:induction false} NamedPrefix(locs: seq<Option<nat>>, k: nat, m: nat)
    requires k <= m <= |locs|
    ensures Named(locs, k) <= Named(locs, m)
    decreases m - k
  {
    if k < m {
      NamedPrefix(locs, k + 1, m);
    }
  }

  /** Every one of the first `k` lines names a record, now held by `user`. */
  predicate HeldUpTo(docs: seq<Product>, locs: seq<Option<nat>>, k: nat, user: UserId, expires: int)
    requires k <= |locs|
  {
    forall l :: 0 <= l < k ==>
      locs[l].Some? && locs[l].value < |docs| && HeldBy(docs[locs[l].value], user, expires)
  }

  /** The cart's running total over the first `k` lines: the named record's
      price times the units. */
  function LinesTotal(docs: seq<Product>, locs: seq<Option<nat>>, lines: seq<RequestLine>, k: nat): int
    requires k <= |lines| == |locs|
    requires forall l :: 0 <= l < k ==> locs[l].Some? && locs[l].value < |docs|
  {
    if k == 0 then 0
    else LinesTotal(docs, locs, lines, k - 1) + docs[locs[k - 1].value].price * Units(lines[k - 1].quantity)
  }

  /** The payment recorded for one line whose record is `p`. */
  function LinePayment(p: Product, line: RequestLine, orderId: string, user: UserId,
                       customer: Option<Customer>, expires: int): (r: Payment)
    ensures r.productRef == Some(p.id) && r.amount == p.price * Units(line.quantity)
    ensures r.orderId == orderId && r.userId == user && r.customer == customer
    ensures r.status == Pending && r.reservationExpiresAt == expires
  {
    NewPayment(orderId, Some(p.id), None, user, customer, p.price * Units(line.quantity), expires)
  }

  /** The payments recorded for the first `k` lines, in order, after those
      that were there before. */
  predicate PaymentsUpTo(pays0: seq<Payment>, pays: seq<Payment>, docs0: seq<Product>, locs: seq<Option<nat>>,
                         lines: seq<RequestLine>, orderIds: seq<string>, k: nat,
                         user: UserId, customer: Option<Customer>, expires: int)
    requires k <= |lines| == |orderIds| == |locs|
  {
    |pays| == |pays0| + k && pays[..|pays0|] == pays0
    && forall l :: 0 <= l < k ==>
         locs[l].Some? && locs[l].value < |docs0|
         && pays[|pays0| + l] == LinePayment(docs0[locs[l].value], lines[l], orderIds[l], user, customer, expires)
  }

  /** What one pass over a line leaves: the records, the payments and the
      reply. */
  datatype LineResult = LineResult(docs: seq<Product>, pays: seq<Payment>, reply: Reply)

  /** One pass over line `k`: not found; refused as sold (after releasing a
      lapsed hold) or as held by somebody else; or claimed, with the line's
      payment stored when it passes validation and its order id is new. */
  function LineEffect(before: seq<Product>, paysBefore: seq<Payment>, line: RequestLine, k: nat,
                      customer: Option<Customer>, user: UserId, now: int, orderId: string,
                      expires: int): LineResult
  {
    match LocateProduct(before, line.productId)
    case None => LineResult(before, paysBefore, LineNotFound(k))
    case Some(i) =>
      var p := before[i];
      match ClaimVerdict(Normalised(p, now), user, now)
      case RefuseSold => LineResult(before[i := Normalised(p, now)], paysBefore, LineSoldOut(k))
      case RefuseHeld(m, u) => LineResult(before, paysBefore, LineHeldByAnother(k, m, u))
      case Claim =>
        var claimed := before[i := Claimed(p, expires, orderId, user)];
        if CustomerComplete(customer) && p.id.NativeId? && FreshOrderId(paysBefore, orderId) then
          LineResult(claimed, paysBefore + [LinePayment(p, line, orderId, user, customer, expires)],
                     ReservedFor(orderId, expires))
        else
          LineResult(claimed, paysBefore, LineSaveFailed(k))
  }

  /** One pass of the cart handler's loop over line `k`: the claim of
      /reserve under the shared deadline, then the line's payment, whose
      reference is the record's own `_id` (so a custom `_id` fails the cast). */
  method ReserveLine(products: ProductCollection, payments: PaymentCollection, line: RequestLine, k: nat,
                     customer: Option<Customer>, user: UserId, now: int, orderId: string, expires: int)
    returns (reply: Reply)
    requires products.Valid() && payments.Valid() && IsClaimOrderId(orderId)
    modifies products, payments
    ensures products.Valid() && payments.Valid() && SameKeys(old(products.docs), products.docs)
    ensures LineResult(products.docs, payments.docs, reply)
            == LineEffect(old(products.docs), old(payments.docs), line, k, customer, user, now, orderId, expires)
  {
    var located, verdict := ClaimProduct(products, line.productId, user, now, orderId, expires);
    if located.None? {
      return LineNotFound(k);
    }
    match verdict {
      case RefuseSold =>
        return LineSoldOut(k);
      case RefuseHeld(m, u) =>
        return LineHeldByAnother(k, m, u);
      case Claim =>
    }
    var i := located.value;
    ObjectIdReferenceIsOwnId(products.docs, i);
    var saved := InsertLinePayment(payments, products.docs[i], line, orderId, user, customer, expires);
    reply := if saved then ReservedFor(orderId, expires) else LineSaveFailed(k);
  }

  /** `new Payment(...).save()` for one cart line. */
  method InsertLinePayment(payments: PaymentCollection, p: Product, line: RequestLine, orderId: string,
                           user: UserId, customer: Option<Customer>, expires: int) returns (saved: bool)
    requires payments.Valid() && orderId != ""
    modifies payments
    ensures payments.Valid()
    ensures saved == (CustomerComplete(customer) && p.id.NativeId? && FreshOrderId(old(payments.docs), orderId))
    ensures payments.docs == if saved then old(payments.docs) + [LinePayment(p, line, orderId, user, customer, expires)]
                             else old(payments.docs)
  {
    saved := payments.Insert(LinePayment(p, line, orderId, user, customer, expires));
  }

  predicate SamePrices(a: seq<Product>, b: seq<Product>) {
    |a| == |b| && forall j :: 0 <= j < |a| ==> a[j].price == b[j].price
  }

  /** Records outside the first `k` lines' are as they were. */
  predicate UnnamedUnchanged(docs0: seq<Product>, docs: seq<Product>, locs: seq<Option<nat>>, k: nat)
    requires |docs0| == |docs| && k <= |locs|
  {
    forall j :: 0 <= j < |docs| && j !in Named(locs, k) ==> docs[j] == docs0[j]
  }

  /** The loop invariant of the cart handler after the first `k` lines, over
      the stores as they were before the request (`docs0`, `pays0`) and as
      they are now. */
  predicate CartLoopState(docs0: seq<Product>, docs: seq<Product>, pays0: seq<Payment>, pays: seq<Payment>,
                          lines: seq<RequestLine>, orderIds: seq<string>, k: nat, user: UserId,
                          customer: Option<Customer>, expires: int)
    requires k <= |lines| == |orderIds|
  {
    var locs := Locations(docs0, lines);
    SameKeys(docs0, docs) && SamePrices(docs0, docs)
    && LocatedUpTo(locs, k)
    && HeldUpTo(docs, locs, k, user, expires)
    && PaymentsUpTo(pays0, pays, docs0, locs, lines, orderIds, k, user, customer, expires)
    && UnnamedUnchanged(docs0, docs, locs, k)
  }

  /** A successful line keeps the loop invariant: its record joins the held
      ones, its payment is appended, and no record outside the lines seen
      so far has changed. */
  lemma CartStepKeeps(docs0: seq<Product>, before: seq<Product>, after: seq<Product>,
                      pays0: seq<Payment>, paysBefore: seq<Payment>, paysAfter: seq<Payment>,
                      lines: seq<RequestLine>, orderIds: seq<string>, k: nat, i: nat, user: UserId,
                      customer: Option<Customer>, expires: int)
    requires k < |lines| == |orderIds|
    requires CartLoopState(docs0, before, pays0, paysBefore, lines, orderIds, k, user, customer, expires)
    requires Locations(docs0, lines)[k] == Some(i) && i < |docs0|
    requires after == before[i := Claimed(before[i], expires, orderIds[k], user)]
    requires paysAfter == paysBefore + [LinePayment(before[i], lines[k], orderIds[k], user, customer, expires)]
    ensures CartLoopState(docs0, after, pays0, paysAfter, lines, orderIds, k + 1, user, customer, expires)
  {
    var locs := Locations(docs0, lines);
    ClaimKeepsKeys(docs0, before, i, expires, orderIds[k], user);
    HeldAfterClaim(before, locs, k, i, orderIds[k], user, expires);
    UnnamedAfterWrite(docs0, before, after, locs, k, i, k + 1);
    assert LinePayment(before[i], lines[k], orderIds[k], user, customer, expires)
        == LinePayment(docs0[i], lines[k], orderIds[k], user, customer, expires) by {
      assert before[i].id == docs0[i].id && before[i].price == docs0[i].price;
    }
    PaymentsAfterLine(pays0, paysBefore, paysAfter, docs0, locs, lines, orderIds, k, user, customer, expires);
  }

  /** A claim changes no key and no price. */
  lemma ClaimKeepsKeys(docs0: seq<Product>, before: seq<Product>, i: nat, expires: int, orderId: string,
                       user: UserId)
    requires i < |before| && SameKeys(docs0, before) && SamePrices(docs0, before)
    ensures var after := before[i := Claimed(before[i], expires, orderId, user)];
            SameKeys(docs0, after) && SamePrices(docs0, after)
  {
    var c := Claimed(before[i], expires, orderId, user);
    assert c.id == before[i].id && c.productId == before[i].productId && c.price == before[i].price;
  }

  /** The record a claim writes joins those held for `user`. */
  lemma HeldAfterClaim(before: seq<Product>, locs: seq<Option<nat>>, k: nat, i: nat, orderId: string,
                       user: UserId, expires: int)
    requires k < |locs| && i < |before| && locs[k] == Some(i)
    requires HeldUpTo(before, locs, k, user, expires)
    ensures HeldUpTo(before[i := Claimed(before[i], expires, orderId, user)], locs, k + 1, user, expires)
  {
  }

  lemma PaymentsAfterLine(pays0: seq<Payment>, paysBefore: seq<Payment>, paysAfter: seq<Payment>,
                          docs0: seq<Product>, locs: seq<Option<nat>>, lines: seq<RequestLine>,
                          orderIds: seq<string>, k: nat, user: UserId, customer: Option<Customer>, expires: int)
    requires k < |lines| == |orderIds| == |locs|
    requires PaymentsUpTo(pays0, paysBefore, docs0, locs, lines, orderIds, k, user, customer, expires)
    requires locs[k].Some? && locs[k].value < |docs0|
    requires paysAfter == paysBefore + [LinePayment(docs0[locs[k].value], lines[k], orderIds[k], user, customer, expires)]
    ensures PaymentsUpTo(pays0, paysAfter, docs0, locs, lines, orderIds, k + 1, user, customer, expires)
  {
    assert paysAfter[..|pays0|] == paysBefore[..|pays0|];
    forall l | 0 <= l < k + 1
      ensures paysAfter[|pays0| + l]
              == LinePayment(docs0[locs[l].value], lines[l], orderIds[l], user, customer, expires)
    {
      if l < k {
        assert paysAfter[|pays0| + l] == paysBefore[|pays0| + l];
      }
    }
  }

  /** What the cart handler has done when it replies: every line before the
      one the reply names holds its record for `user` and has its payment;
      a sold, held or unsaved line stops the request there. */
  predicate CartOutcome(docs0: seq<Product>, docs: seq<Product>, pays0: seq<Payment>, pays: seq<Payment>,
                        lines: seq<RequestLine>, orderIds: seq<string>, user: UserId,
                        customer: Option<Customer>, now: int, reply: Reply)
    requires |docs0| == |docs| && |lines| == |orderIds|
  {
    var expires := now + HoldMinutes * MinuteMs;
    var locs := Locations(docs0, lines);
    match reply
    case CartReserved(ids, at, subtotal, grand) =>
      LocatedUpTo(locs, |lines|)
      && HeldUpTo(docs, locs, |lines|, user, expires)
      && PaymentsUpTo(pays0, pays, docs0, locs, lines, orderIds, |lines|, user, customer, expires)
      && ids == orderIds && at == expires
      && subtotal == LinesTotal(docs0, locs, lines, |lines|)
      && grand == subtotal + ShippingPaise + Gst(subtotal)
    case LineNotFound(k) =>
      k < |lines| && locs[k].None?
      && HeldUpTo(docs, locs, k, user, expires)
      && PaymentsUpTo(pays0, pays, docs0, locs, lines, orderIds, k, user, customer, expires)
    case LineSoldOut(k) =>
      k < |lines| && locs[k].Some? && locs[k].value < |docs| && docs[locs[k].value].status == Sold
      && HeldUpTo(docs, locs, k, user, expires)
      && PaymentsUpTo(pays0, pays, docs0, locs, lines, orderIds, k, user, customer, expires)
    case LineHeldByAnother(k, m, u) =>
      k < |lines| && locs[k].Some? && locs[k].value < |docs|
      && ClaimVerdict(docs[locs[k].value], user, now) == RefuseHeld(m, u)
      && HeldUpTo(docs, locs, k, user, expires)
      && PaymentsUpTo(pays0, pays, docs0, locs, lines, orderIds, k, user, customer, expires)
    case LineSaveFailed(k) =>
      k < |lines|
      && HeldUpTo(docs, locs, k + 1, user, expires)
      && PaymentsUpTo(pays0, pays, docs0, locs, lines, orderIds, k, user, customer, expires)
    case EmptyRequest => |lines| == 0
    case _ => false
  }

  /** Writing the record line `k` names keeps every record outside the
      named ones as it was. */
  lemma UnnamedAfterWrite(docs0: seq<Product>, before: seq<Product>, after: seq<Product>,
                          locs: seq<Option<nat>>, k: nat, i: nat, n: nat)
    requires k < n <= |locs| && |before| == |docs0| && i < |before| && locs[k] == Some(i)
    requires UnnamedUnchanged(docs0, before, locs, k)
    requires |after| == |before| && forall j :: 0 <= j < |after| && j != i ==> after[j] == before[j]
    ensures UnnamedUnchanged(docs0, after, locs, n)
  {
    NamedPrefix(locs, k + 1, n);
  }

  /** Records outside the first `k` lines' are outside those of any longer
      prefix too. */
  lemma UnnamedWiden(docs0: seq<Product>, docs: seq<Product>, locs: seq<Option<nat>>, k: nat, n: nat)
    requires k <= n <= |locs| && |docs0| == |docs|
    requires UnnamedUnchanged(docs0, docs, locs, k)
    ensures UnnamedUnchanged(docs0, docs, locs, n)
  {
    NamedPrefix(locs, k, n);
  }

  lemma StopNotFound(docs0: seq<Product>, docs: seq<Product>, pays0: seq<Payment>, pays: seq<Payment>,
                     lines: seq<RequestLine>, orderIds: seq<string>, k: nat, user: UserId,
                     customer: Option<Customer>, now: int)
    requires k < |lines| == |orderIds| && Locations(docs0, lines)[k].None?
    requires CartLoopState(docs0, docs, pays0, pays, lines, orderIds, k, user, customer, now + HoldMinutes * MinuteMs)
    ensures CartReplied(docs0, docs, pays0, pays, lines, orderIds, user, customer, now, LineNotFound(k))
  {
    UnnamedWiden(docs0, docs, Locations(docs0, lines), k, |lines|);
  }

  lemma StopSold(docs0: seq<Product>, before: seq<Product>, after: seq<Product>, pays0: seq<Payment>,
                 pays: seq<Payment>, lines: seq<RequestLine>, orderIds: seq<string>, k: nat, i: nat,
                 user: UserId, customer: Option<Customer>, now: int)
    requires k < |lines| == |orderIds| && Locations(docs0, lines)[k] == Some(i) && i < |docs0|
    requires CartLoopState(docs0, before, pays0, pays, lines, orderIds, k, user, customer, now + HoldMinutes * MinuteMs)
    requires after == before[i := Normalised(before[i], now)] && after[i].status == Sold
    ensures CartReplied(docs0, after, pays0, pays, lines, orderIds, user, customer, now, LineSoldOut(k))
  {
    var locs := Locations(docs0, lines);
    UnnamedAfterWrite(docs0, before, after, locs, k, i, |lines|);
    assert HeldUpTo(after, locs, k, user, now + HoldMinutes * MinuteMs);
  }

  lemma StopHeld(docs0: seq<Product>, docs: seq<Product>, pays0: seq<Payment>, pays: seq<Payment>,
                 lines: seq<RequestLine>, orderIds: seq<string>, k: nat, i: nat, user: UserId,
                 customer: Option<Customer>, now: int, m: int, u: int)
    requires k < |lines| == |orderIds| && Locations(docs0, lines)[k] == Some(i) && i < |docs0|
    requires CartLoopState(docs0, docs, pays0, pays, lines, orderIds, k, user, customer, now + HoldMinutes * MinuteMs)
    requires ClaimVerdict(docs[i], user, now) == RefuseHeld(m, u)
    ensures CartReplied(docs0, docs, pays0, pays, lines, orderIds, user, customer, now, LineHeldByAnother(k, m, u))
  {
    UnnamedWiden(docs0, docs, Locations(docs0, lines), k, |lines|);
  }

  lemma StopUnsaved(docs0: seq<Product>, before: seq<Product>, after: seq<Product>, pays0: seq<Payment>,
                    pays: seq<Payment>, lines: seq<RequestLine>, orderIds: seq<string>, k: nat, i: nat,
                    user: UserId, customer: Option<Customer>, now: int)
    requires k < |lines| == |orderIds| && Locations(docs0, lines)[k] == Some(i) && i < |docs0|
    requires CartLoopState(docs0, before, pays0, pays, lines, orderIds, k, user, customer, now + HoldMinutes * MinuteMs)
    requires after == before[i := Claimed(before[i], now + HoldMinutes * MinuteMs, orderIds[k], user)]
    ensures CartReplied(docs0, after, pays0, pays, lines, orderIds, user, customer, now, LineSaveFailed(k))
  {
    var locs := Locations(docs0, lines);
    UnnamedAfterWrite(docs0, before, after, locs, k, i, |lines|);
    ClaimKeepsKeys(docs0, before, i, now + HoldMinutes * MinuteMs, orderIds[k], user);
    HeldAfterClaim(before, locs, k, i, orderIds[k], user, now + HoldMinutes * MinuteMs);
  }

  /** A line that is refused or whose payment is not saved ends the request
      with the outcome its reply describes. */
  lemma CartStops(docs0: seq<Product>, before: seq<Product>, after: seq<Product>,
                  pays0: seq<Payment>, paysBefore: seq<Payment>, paysAfter: seq<Payment>,
                  lines: seq<RequestLine>, orderIds: seq<string>, k: nat, user: UserId,
                  customer: Option<Customer>, now: int, reply: Reply)
    requires k < |lines| == |orderIds|
    requires CartLoopState(docs0, before, pays0, paysBefore, lines, orderIds, k, user, customer,
                           now + HoldMinutes * MinuteMs)
    requires LocateProduct(before, lines[k].productId) == Locations(docs0, lines)[k]
    requires LineResult(after, paysAfter, reply)
             == LineEffect(before, paysBefore, lines[k], k, customer, user, now, orderIds[k],
                           now + HoldMinutes * MinuteMs)
    requires !reply.ReservedFor?
    ensures CartReplied(docs0, after, pays0, paysAfter, lines, orderIds, user, customer, now, reply)
  {
    match Locations(docs0, lines)[k] {
      case None =>
        StopNotFound(docs0, before, pays0, paysBefore, lines, orderIds, k, user, customer, now);
      case Some(i) =>
        var p := before[i];
        match ClaimVerdict(Normalised(p, now), user, now) {
          case RefuseSold =>
            StopSold(docs0, before, after, pays0, paysBefore, lines, orderIds, k, i, user, customer, now);
          case RefuseHeld(m, u) =>
            ClaimVerdictCases(p, user, now);
            StopHeld(docs0, before, pays0, paysBefore, lines, orderIds, k, i, user, customer, now, m, u);
          case Claim =>
            StopUnsaved(docs0, before, after, pays0, paysBefore, lines, orderIds, k, i, user, customer, now);
        }
    }
  }

  /** A line whose claim and payment succeed extends the loop invariant by
      one line and adds its amount to the running total. */
  lemma CartAdvances(docs0: seq<Product>, before: seq<Product>, after: seq<Product>,
                     pays0: seq<Payment>, paysBefore: seq<Payment>, paysAfter: seq<Payment>,
                     lines: seq<RequestLine>, orderIds: seq<string>, k: nat, user: UserId,
                     customer: Option<Customer>, now: int, reply: Reply)
    requires k < |lines| == |orderIds|
    requires CartLoopState(docs0, before, pays0, paysBefore, lines, orderIds, k, user, customer,
                           now + HoldMinutes * MinuteMs)
    requires LocateProduct(before, lines[k].productId) == Locations(docs0, lines)[k]
    requires LineResult(after, paysAfter, reply)
             == LineEffect(before, paysBefore, lines[k], k, customer, user, now, orderIds[k],
                           now + HoldMinutes * MinuteMs)
    requires reply.ReservedFor?
    ensures CartLoopState(docs0, after, pays0, paysAfter, lines, orderIds, k + 1, user, customer,
                          now + HoldMinutes * MinuteMs)
    ensures LocateProduct(after, lines[k].productId) == Locations(docs0, lines)[k]
    ensures var locs := Locations(docs0, lines);
            locs[k].Some?
            && LinesTotal(docs0, locs, lines, k + 1)
               == LinesTotal(docs0, locs, lines, k) + after[locs[k].value].price * Units(lines[k].quantity)
  {
    var i := Locations(docs0, lines)[k].value;
    CartStepKeeps(docs0, before, after, pays0, paysBefore, paysAfter, lines, orderIds, k, i,
                  user, customer, now + HoldMinutes * MinuteMs);
    LocateSameKeys(before, after, lines[k].productId);
  }

  /** The loop invariant with the running total of the lines so far. */
  predicate CartProgress(docs0: seq<Product>, docs: seq<Product>, pays0: seq<Payment>, pays: seq<Payment>,
                         lines: seq<RequestLine>, orderIds: seq<string>, k: nat, user: UserId,
                         customer: Option<Customer>, now: int, total: int)
    requires k <= |lines| == |orderIds|
  {
    CartLoopState(docs0, docs, pays0, pays, lines, orderIds, k, user, customer, now + HoldMinutes * MinuteMs)
    && total == LinesTotal(docs0, Locations(docs0, lines), lines, k)
  }

  /** The cart handler's reply and the stores it leaves: only records that
      some line names have changed, and the outcome the reply describes. */
  predicate CartReplied(docs0: seq<Product>, docs: seq<Product>, pays0: seq<Payment>, pays: seq<Payment>,
                        lines: seq<RequestLine>, orderIds: seq<string>, user: UserId,
                        customer: Option<Customer>, now: int, reply: Reply)
    requires |lines| == |orderIds|
  {
    |docs| == |docs0| && SameKeys(docs0, docs)
    && UnnamedUnchanged(docs0, docs, Locations(docs0, lines), |lines|)
    && CartOutcome(docs0, docs, pays0, pays, lines, orderIds, user, customer, now, reply)
  }

  /** The loop body of the cart handler for line `k`: reserve the line and
      either extend the invariant, adding the line's amount to the total, or
      stop with the reply's outcome. */
  method CartLine(products: ProductCollection, payments: PaymentCollection,
                  ghost docs0: seq<Product>, ghost pays0: seq<Payment>,
                  lines: seq<RequestLine>, orderIds: seq<string>, k: nat,
                  customer: Option<Customer>, user: UserId, now: int, total: int)
    returns (step: Reply, newTotal: int)
    requires k < |lines| == |orderIds| && IsClaimOrderId(orderIds[k])
    requires products.Valid() && payments.Valid()
    requires CartProgress(docs0, products.docs, pays0, payments.docs, lines, orderIds, k, user, customer, now, total)
    modifies products, payments
    ensures products.Valid() && payments.Valid()
    ensures step.ReservedFor? ==>
              CartProgress(docs0, products.docs, pays0, payments.docs, lines, orderIds, k + 1, user, customer,
                           now, newTotal)
    ensures !step.ReservedFor? ==>
              CartReplied(docs0, products.docs, pays0, payments.docs, lines, orderIds, user, customer, now, step)
  {
    ghost var before := products.docs;
    ghost var paysBefore := payments.docs;
    LocationsAt(docs0, lines, k);
    LocateSameKeys(docs0, before, lines[k].productId);
    step := ReserveLine(products, payments, lines[k], k, customer, user, now, orderIds[k],
                        now + HoldMinutes * MinuteMs);
    if !step.ReservedFor? {
      CartStops(docs0, before, products.docs, pays0, paysBefore, payments.docs, lines, orderIds, k,
                user, customer, now, step);
      return step, total;
    }
    CartAdvances(docs0, before, products.docs, pays0, paysBefore, payments.docs, lines, orderIds, k,
                 user, customer, now, step);
    var i := LocateProduct(products.docs, lines[k].productId).value;
    newTotal := total + products.docs[i].price * Units(lines[k].quantity);
  }

  /** Before the first line nothing is held or recorded. */
  lemma CartStarts(docs0: seq<Product>, pays0: seq<Payment>, lines: seq<RequestLine>, orderIds: seq<string>,
                   user: UserId, customer: Option<Customer>, now: int)
    requires |lines| == |orderIds|
    ensures CartProgress(docs0, docs0, pays0, pays0, lines, orderIds, 0, user, customer, now, 0)
  {
    assert pays0[..|pays0|] == pays0;
  }

  /** After the last line, the loop invariant is the reserved outcome. */
  lemma CartCompletes(docs0: seq<Product>, docs: seq<Product>, pays0: seq<Payment>, pays: seq<Payment>,
                      lines: seq<RequestLine>, orderIds: seq<string>, user: UserId,
                      customer: Option<Customer>, now: int, total: int)
    requires |lines| == |orderIds|
    requires CartProgress(docs0, docs, pays0, pays, lines, orderIds, |lines|, user, customer, now, total)
    ensures CartReplied(docs0, docs, pays0, pays, lines, orderIds, user, customer, now,
                        CartReserved(orderIds, now + HoldMinutes * MinuteMs, total,
                                     total + ShippingPaise + Gst(total)))
  {
  }

  /** An empty request changes nothing. */
  lemma CartEmpty(docs: seq<Product>, pays: seq<Payment>, user: UserId, customer: Option<Customer>, now: int)
    ensures CartReplied(docs, docs, pays, pays, [], [], user, customer, now, EmptyRequest)
  {
  }

  /** POST /submit-cart-and-reserve: claims each line in turn under one
      shared deadline and records a payment per line. The first line that is
      missing, sold, held by somebody else or whose payment cannot be saved
      ends the request, and nothing claimed or recorded for earlier lines is
      undone. */
  method SubmitCartAndReserve(products: ProductCollection, payments: PaymentCollection,
                              lines: seq<RequestLine>, customer: Option<Customer>,
                              user: UserId, now: int, orderIds: seq<string>) returns (reply: Reply)
    requires products.Valid() && payments.Valid()
    requires |orderIds| == |lines| && forall l :: 0 <= l < |orderIds| ==> IsClaimOrderId(orderIds[l])
    modifies products, payments
    ensures products.Valid() && payments.Valid()
    ensures |lines| == 0 ==> reply == EmptyRequest
                             && products.docs == old(products.docs) && payments.docs == old(payments.docs)
    ensures CartReplied(old(products.docs), products.docs, old(payments.docs), payments.docs,
                        lines, orderIds, user, customer, now, reply)
  {
    if |lines| == 0 {
      CartEmpty(products.docs, payments.docs, user, customer, now);
      return EmptyRequest;
    }
    reply := ReserveLines(products, payments, lines, customer, user, now, orderIds);
  }

  /** The cart handler's loop over a non-empty request. */
  method ReserveLines(products: ProductCollection, payments: PaymentCollection,
                      lines: seq<RequestLine>, customer: Option<Customer>,
                      user: UserId, now: int, orderIds: seq<string>) returns (reply: Reply)
    requires products.Valid() && payments.Valid()
    requires |orderIds| == |lines| && forall l :: 0 <= l < |orderIds| ==> IsClaimOrderId(orderIds[l])
    modifies products, payments
    ensures products.Valid() && payments.Valid()
    ensures CartReplied(old(products.docs), products.docs, old(payments.docs), payments.docs,
                        lines, orderIds, user, customer, now, reply)
  {
    var total := 0;
    ghost var docs0 := products.docs;
    ghost var pays0 := payments.docs;
    var k := 0;
    CartStarts(docs0, pays0, lines, orderIds, user, customer, now);
    while k < |lines|
      invariant 0 <= k <= |lines|
      invariant products.Valid() && payments.Valid()
      invariant CartProgress(docs0, products.docs, pays0, payments.docs, lines, orderIds, k, user, customer, now, total)
    {
      var step;
      step, total := CartLine(products, payments, docs0, pays0, lines, orderIds, k, customer, user, now, total);
      if !step.ReservedFor? {
        assert docs0 == old(products.docs) && pays0 == old(payments.docs);
        return step;
      }
      k := k + 1;
    }
    CartCompletes(docs0, products.docs, pays0, payments.docs, lines, orderIds, user, customer, now, total);
    reply := CartReserved(orderIds, now + HoldMinutes * MinuteMs, total, total + ShippingPaise + Gst(total));
  }

  // ---------------------------------------------------------------------------
  // POST /submit-cart-payment-details

  /** Where the cart settlement stands: both collections, the order ids
      settled so far, and whether a save has thrown, which ends the handler
      with a server error and keeps the writes already made. */
  datatype Settlement = Settlement(docs: seq<Product>, pays: seq<Payment>, processed: seq<string>, failed: bool)

  /** The loop body for one order id: a missing or already resolved payment is
      skipped; a lapsed one becomes expired and its product is left alone; a
      valid one takes the proof, becomes verified, and its product is sold. */
  function SettleOne(s: Settlement, orderId: string, user: UserId, now: int, m: Method, d: ProofDetails): (r: Settlement)
    ensures |r.pays| == |s.pays| && SameKeys(s.docs, r.docs)
  {
    if s.failed then s
    else
      match FindPayment(s.pays, orderId, user)
      case None => s
      case Some(k) =>
        var p := s.pays[k];
        if p.status != Pending then s
        else if !IsReservationValid(p, now) then
          if PassesValidation(p.(status := Expired)) then s.(pays := s.pays[k := p.(status := Expired)])
          else s.(failed := true)
        else
          var verified := p.(paymentMethod := m, details := d, status := Verified);
          if !PassesValidation(verified) then s.(failed := true)
          else Settlement(UpdateTarget(s.docs, ProductTarget(p), SoldPatch(true)), s.pays[k := verified],
                          s.processed + [orderId], false)
  }

  /** The whole loop over `ids`, in order; after a failed save nothing more happens. */
  function SettleAll(docs: seq<Product>, pays: seq<Payment>, ids: seq<string>,
                     user: UserId, now: int, m: Method, d: ProofDetails): (r: Settlement)
    ensures |r.pays| == |pays| && SameKeys(docs, r.docs)
    decreases |ids|
  {
    if |ids| == 0 then Settlement(docs, pays, [], false)
    else SettleOne(SettleAll(docs, pays, ids[..|ids| - 1], user, now, m, d), ids[|ids| - 1], user, now, m, d)
  }

  /** Settling changes a payment only when it was pending; it then resolves it
      and keeps its order id and owner. */
  predicate ResolvesOnlyPending(before: seq<Payment>, after: seq<Payment>) {
    |after| == |before|
    && forall j :: 0 <= j < |before| ==>
         after[j] == before[j]
         || (before[j].status == Pending && after[j].status != Pending
             && after[j].orderId == before[j].orderId && after[j].userId == before[j].userId)
  }

  /** Every product record is untouched or marked sold with its reservation cleared. */
  predicate SoldOrUntouched(before: seq<Product>, after: seq<Product>) {
    |after| == |before|
    && forall j :: 0 <= j < |before| ==> after[j] == before[j] || after[j] == Apply(before[j], SoldPatch(true))
  }

  /** One step resolves at most one pending payment, marks at most one product
      sold, and touches the products only for an order it settles. */
  lemma SettleOneEffect(s: Settlement, orderId: string, user: UserId, now: int, m: Method, d: ProofDetails)
    ensures var r := SettleOne(s, orderId, user, now, m, d);
            ResolvesOnlyPending(s.pays, r.pays) && SoldOrUntouched(s.docs, r.docs)
            && (r.processed == s.processed || r.processed == s.processed + [orderId])
            && (r.docs != s.docs ==> r.processed == s.processed + [orderId])
            && (s.failed ==> r == s)
  {
    var r := SettleOne(s, orderId, user, now, m, d);
    if !s.failed && FindPayment(s.pays, orderId, user).Some? {
      var k := FindPayment(s.pays, orderId, user).value;
      var p := s.pays[k];
      if p.status == Pending && IsReservationValid(p, now)
         && PassesValidation(p.(paymentMethod := m, details := d, status := Verified)) {
        var q := ProductTarget(p);
        if q.Some? && FindFirst(s.docs, q.value).Some? {
          var i := FindFirst(s.docs, q.value).value;
          assert r.docs == s.docs[i := Apply(s.docs[i], SoldPatch(true))];
        }
      }
    }
  }

  lemma ResolvesOnlyPendingTransitive(a: seq<Payment>, b: seq<Payment>, c: seq<Payment>)
    requires ResolvesOnlyPending(a, b) && ResolvesOnlyPending(b, c)
    ensures ResolvesOnlyPending(a, c)
  {
  }

  lemma SoldOrUntouchedTransitive(a: seq<Product>, b: seq<Product>, c: seq<Product>)
    requires SoldOrUntouched(a, b) && SoldOrUntouched(b, c)
    ensures SoldOrUntouched(a, c)
  {
  }

  /** Over the whole loop: only pending payments are resolved, products are
      only ever marked sold (a lapsed order's product is never released), and
      only requested ids are reported. */
  lemma {:induction false} SettleAllEffect(docs: seq<Product>, pays: seq<Payment>, ids: seq<string>,
                                           user: UserId, now: int, m: Method, d: ProofDetails)
    ensures var r := SettleAll(docs, pays, ids, user, now, m, d);
            ResolvesOnlyPending(pays, r.pays) && SoldOrUntouched(docs, r.docs)
            && forall x :: x in r.processed ==> x in ids
    decreases |ids|
  {
    if |ids| > 0 {
      var prefix := ids[..|ids| - 1];
      var s := SettleAll(docs, pays, prefix, user, now, m, d);
      SettleAllEffect(docs, pays, prefix, user, now, m, d);
      SettleOneEffect(s, ids[|ids| - 1], user, now, m, d);
      ResolvesOnlyPendingTransitive(pays, s.pays, SettleAll(docs, pays, ids, user, now, m, d).pays);
      SoldOrUntouchedTransitive(docs, s.docs, SettleAll(docs, pays, ids, user, now, m, d).docs);
      forall x | x in prefix
        ensures x in ids
      {
        var j :| 0 <= j < |prefix| && prefix[j] == x;
        assert ids[j] == x;
      }
    }
  }

  /** Resolving payments keeps which position holds which order, so the
      lookups find the same positions. */
  lemma FindPaymentAfterResolving(a: seq<Payment>, b: seq<Payment>, orderId: string, user: UserId)
    requires ResolvesOnlyPending(a, b)
    ensures FindPayment(a, orderId, user) == FindPayment(b, orderId, user)
  {
    IndexWhereCongruent(a, (p: Payment) => p.orderId == orderId && p.userId == user,
                        b, (p: Payment) => p.orderId == orderId && p.userId == user);
  }

  /** The reported orders, each settled with the submitted proof. */
  predicate SettledWith(pays: seq<Payment>, processed: seq<string>, user: UserId, m: Method, d: ProofDetails) {
    forall x :: x in processed ==>
      var k := FindPayment(pays, x, user);
      k.Some? && pays[k.value].status == Verified && pays[k.value].paymentMethod == m
      && pays[k.value].details == d
  }

  /** No order id is listed twice. */
  predicate NoRepeats(ids: seq<string>) {
    forall a, b :: 0 <= a < b < |ids| ==> ids[a] != ids[b]
  }

  /** A step keeps every reported order settled with the proof, and reports a
      new order only when its payment was still pending, hence not yet reported. */
  lemma SettleOneProcessed(s: Settlement, x: string, user: UserId, now: int, m: Method, d: ProofDetails)
    requires SettledWith(s.pays, s.processed, user, m, d) && NoRepeats(s.processed)
    ensures var r := SettleOne(s, x, user, now, m, d);
            SettledWith(r.pays, r.processed, user, m, d) && NoRepeats(r.processed)
  {
    var r := SettleOne(s, x, user, now, m, d);
    SettleOneEffect(s, x, user, now, m, d);
    forall y | y in s.processed
      ensures var k := FindPayment(r.pays, y, user);
              k.Some? && r.pays[k.value].status == Verified && r.pays[k.value].paymentMethod == m
              && r.pays[k.value].details == d
    {
      FindPaymentAfterResolving(s.pays, r.pays, y, user);
    }
    if r.processed != s.processed {
      var k := FindPayment(s.pays, x, user).value;
      FindPaymentAfterResolving(s.pays, r.pays, x, user);
      assert s.pays[k].status == Pending;
      assert x !in s.processed;
    }
  }

  /** Every reported order's payment is verified with the submitted method and
      proof, and no order is reported twice, even when the request repeats it. */
  lemma {:induction false} SettleAllProcessed(docs: seq<Product>, pays: seq<Payment>, ids: seq<string>,
                                              user: UserId, now: int, m: Method, d: ProofDetails)
    ensures var r := SettleAll(docs, pays, ids, user, now, m, d);
            SettledWith(r.pays, r.processed, user, m, d) && NoRepeats(r.processed)
    decreases |ids|
  {
    if |ids| > 0 {
      var prefix := ids[..|ids| - 1];
      SettleAllProcessed(docs, pays, prefix, user, now, m, d);
      SettleOneProcessed(SettleAll(docs, pays, prefix, user, now, m, d), ids[|ids| - 1], user, now, m, d);
    }
  }

  lemma SettleAllStep(docs: seq<Product>, pays: seq<Payment>, ids: seq<string>, k: nat,
                      user: UserId, now: int, m: Method, d: ProofDetails)
    requires k < |ids|
    ensures SettleAll(docs, pays, ids[..k + 1], user, now, m, d)
            == SettleOne(SettleAll(docs, pays, ids[..k], user, now, m, d), ids[k], user, now, m, d)
  {
    assert ids[..k + 1][..k] == ids[..k];
  }

  /** Once a save has thrown, the rest of the request changes nothing. */
  lemma {:induction false} SettleAllAfterFailure(docs: seq<Product>, pays: seq<Payment>, ids: seq<string>, k: nat,
                                                 user: UserId, now: int, m: Method, d: ProofDetails)
    requires k <= |ids| && SettleAll(docs, pays, ids[..k], user, now, m, d).failed
    ensures SettleAll(docs, pays, ids, user, now, m, d) == SettleAll(docs, pays, ids[..k], user, now, m, d)
    decreases |ids| - k
  {
    if k < |ids| {
      assert ids[..k + 1][..k] == ids[..k];
      SettleAllAfterFailure(docs, pays, ids, k + 1, user, now, m, d);
    } else {
      assert ids[..k] == ids;
    }
  }

  /** Every payment passes schema validation. */
  predicate AllValidated(pays: seq<Payment>) {
    forall j :: 0 <= j < |pays| ==> PassesValidation(pays[j])
  }

  /** A step on a validated ledger keeps it validated, and after a passed
      proof check its save fails only for a method outside the schema enum. */
  lemma SettleOneValidated(s: Settlement, orderId: string, user: UserId, now: int, m: Method, d: ProofDetails)
    requires AllValidated(s.pays) && RequireProof(m, d) == ProofOk
    ensures var r := SettleOne(s, orderId, user, now, m, d);
            AllValidated(r.pays) && (r.failed && !s.failed ==> m.OtherMethod?)
  {
    var r := SettleOne(s, orderId, user, now, m, d);
    var k := FindPayment(s.pays, orderId, user);
    if !s.failed && k.Some? {
      var p := s.pays[k.value];
      assert PassesValidation(p);
      StatusChangeKeepsValidation(p, Expired, p.adminNotes, p.verifiedBy, p.verifiedAt);
      AcceptedProofSaves(p, m, d, Verified);
      forall j | 0 <= j < |r.pays|
        ensures PassesValidation(r.pays[j])
      {
        if j != k.value {
          assert r.pays[j] == s.pays[j];
        }
      }
    }
  }

  /** With the proof checks passed and a valid ledger, a save can fail only
      because the method is outside the schema enum. */
  lemma {:induction false} SettleFailsOnlyForUnknownMethod(docs: seq<Product>, pays: seq<Payment>, ids: seq<string>,
                                                           user: UserId, now: int, m: Method, d: ProofDetails)
    requires AllValidated(pays) && RequireProof(m, d) == ProofOk
    ensures var r := SettleAll(docs, pays, ids, user, now, m, d);
            (r.failed ==> m.OtherMethod?) && AllValidated(r.pays)
    decreases |ids|
  {
    if |ids| > 0 {
      var s := SettleAll(docs, pays, ids[..|ids| - 1], user, now, m, d);
      SettleFailsOnlyForUnknownMethod(docs, pays, ids[..|ids| - 1], user, now, m, d);
      SettleOneValidated(s, ids[|ids| - 1], user, now, m, d);
    }
  }

  /** The loop body: settles one order id and reports whether a save threw. */
  method SettleOrder(products: ProductCollection, payments: PaymentCollection, orderId: string,
                     user: UserId, now: int, m: Method, d: ProofDetails, processed: seq<string>)
    returns (failed: bool, settled: seq<string>)
    requires products.Valid() && payments.Valid()
    modifies products, payments
    ensures products.Valid() && payments.Valid()
    ensures Settlement(products.docs, payments.docs, settled, failed)
            == SettleOne(Settlement(old(products.docs), old(payments.docs), processed, false),
                         orderId, user, now, m, d)
  {
    failed, settled := false, processed;
    var found := FindPayment(payments.docs, orderId, user);
    if found.None? {
      return;
    }
    var k := found.value;
    var payment := payments.docs[k];
    if payment.status != Pending {
      return;
    }
    if !IsReservationValid(payment, now) {
      var saved := payments.Save(k, payment.(status := Expired));
      failed := !saved;
      return;
    }
    var saved := payments.Save(k, payment.(paymentMethod := m, details := d, status := Verified));
    if !saved {
      failed := true;
      return;
    }
    UpdateTargetOf(products, payment, SoldPatch(true));
    settled := processed + [orderId];
  }

  /** POST /submit-cart-payment-details: after the empty-request and proof
      checks, settles each order id in turn and reports the ones it settled. */
  method SubmitCartPaymentDetails(products: ProductCollection, payments: PaymentCollection,
                                  orderIds: seq<string>, user: UserId, now: int,
                                  m: Method, d: ProofDetails) returns (reply: Reply)
    requires products.Valid() && payments.Valid()
    modifies products, payments
    ensures products.Valid() && payments.Valid()
    ensures |orderIds| == 0 || CheckProof(m, d) != ProofOk ==>
              products.docs == old(products.docs) && payments.docs == old(payments.docs)
              && reply == (if |orderIds| == 0 then EmptyRequest else ProofRejected(CheckProof(m, d)))
    ensures |orderIds| > 0 && CheckProof(m, d) == ProofOk ==>
              var s := SettleAll(old(products.docs), old(payments.docs), orderIds, user, now, m, d);
              products.docs == s.docs && payments.docs == s.pays
              && reply == (if s.failed then SaveFailed else CartSubmitted(s.processed, NextSteps(m)))
  {
    if |orderIds| == 0 {
      return EmptyRequest;
    }
    var check := CheckProof(m, d);
    if check != ProofOk {
      return ProofRejected(check);
    }
    var failed, processed := SettleOrders(products, payments, orderIds, user, now, m, d);
    reply := if failed then SaveFailed else CartSubmitted(processed, NextSteps(m));
  }

  /** The handler's loop over the order ids. */
  method SettleOrders(products: ProductCollection, payments: PaymentCollection,
                      orderIds: seq<string>, user: UserId, now: int, m: Method, d: ProofDetails)
    returns (failed: bool, processed: seq<string>)
    requires products.Valid() && payments.Valid()
    modifies products, payments
    ensures products.Valid() && payments.Valid()
    ensures Settlement(products.docs, payments.docs, processed, failed)
            == SettleAll(old(products.docs), old(payments.docs), orderIds, user, now, m, d)
  {
    ghost var docs0, pays0 := products.docs, payments.docs;
    failed, processed := false, [];
    var k := 0;
    while k < |orderIds|
      invariant 0 <= k <= |orderIds|
      invariant products.Valid() && payments.Valid()
      invariant Settlement(products.docs, payments.docs, processed, false)
                == SettleAll(docs0, pays0, orderIds[..k], user, now, m, d)
    {
      SettleAllStep(docs0, pays0, orderIds, k, user, now, m, d);
      failed, processed := SettleOrder(products, payments, orderIds[k], user, now, m, d, processed);
      if failed {
        SettleAllAfterFailure(docs0, pays0, orderIds, k + 1, user, now, m, d);
        return;
      }
      k := k + 1;
    }
    assert orderIds[..k] == orderIds;
  }
}
