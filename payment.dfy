/** The manual-payment ledger record: its status enum, the fields required
    depending on the payment method, the reservation-validity predicate, the
    order-id format, and the stored collection with its save validation. */
module Payments {
  import opened Common
  import opened Products

  datatype PayStatus = Pending | Verified | Failed | Expired

  /** `paymentMethod`; `OtherMethod` is any value outside the schema enum. */
  datatype Method = NoMethod | Upi | BankTransfer | OtherMethod(name: string)

  /** The proof fields of `paymentDetails`; an absent field is `None`. */
  datatype ProofDetails = ProofDetails(upiTransactionId: Option<string>, bankReferenceNumber: Option<string>)

  /** The required parts of `customerDetails` (street2 and country have
      defaults and are not checked). */
  datatype Customer = Customer(
    name: string, email: string, phone: string,
    street: string, city: string, state: string, pincode: string)

  datatype Payment = Payment(
    orderId: string,
    productRef: Option<Key>,          // productId: an ObjectId reference to a product
    productIdString: Option<string>,  // productIdString: the custom id, when there is no reference
    userId: UserId,
    customer: Option<Customer>,
    paymentMethod: Method,
    details: ProofDetails,
    amount: int,
    status: PayStatus,
    reservationExpiresAt: int,
    adminNotes: Option<string>,
    verifiedBy: Option<UserId>,
    verifiedAt: Option<int>)

  /** A fresh payment as the routes build one: pending, no method, no proof,
      no admin fields. */
  function NewPayment(orderId: string, productRef: Option<Key>, productIdString: Option<string>,
                      userId: UserId, customer: Option<Customer>, amount: int,
                      reservationExpiresAt: int): (p: Payment)
    ensures p.status == Pending && p.paymentMethod == NoMethod
    ensures p.details == ProofDetails(None, None)
    ensures p.adminNotes.None? && p.verifiedBy.None? && p.verifiedAt.None?
    ensures p.orderId == orderId && p.productRef == productRef && p.userId == userId
    ensures p.amount == amount && p.reservationExpiresAt == reservationExpiresAt
  {
    Payment(orderId, productRef, productIdString, userId, customer, NoMethod,
            ProofDetails(None, None), amount, Pending, reservationExpiresAt, None, None, None)
  }

  // ---------------------------------------------------------------------------
  // Validation on save

  predicate CustomerComplete(c: Option<Customer>) {
    c.Some? && c.value.name != "" && c.value.email != "" && c.value.phone != ""
    && c.value.street != "" && c.value.city != "" && c.value.state != "" && c.value.pincode != ""
  }

  /** The conditional `required` of the two proof fields. */
  predicate ProofFieldsPresent(m: Method, d: ProofDetails) {
    (m == Upi ==> Filled(d.upiTransactionId))
    && (m == BankTransfer ==> Filled(d.bankReferenceNumber))
  }

  /** What schema validation demands before a payment is written: the
      required order id and customer details, a method inside the enum, the
      proof field its method requires, and a product reference that casts to
      an ObjectId. */
  predicate PassesValidation(p: Payment) {
    p.orderId != "" && CustomerComplete(p.customer) && !p.paymentMethod.OtherMethod?
    && ProofFieldsPresent(p.paymentMethod, p.details)
    && (p.productRef.Some? ==> p.productRef.value.NativeId?)
  }

  /** Once everything else is in order, the UPI transaction id is needed
      exactly when the method is UPI and the bank reference exactly when the
      method is a bank transfer. */
  lemma ProofFieldRequiredIffMethod(p: Payment)
    requires PassesValidation(p.(details := ProofDetails(Some("-"), Some("-"))))
    ensures !Filled(p.details.upiTransactionId) && Filled(p.details.bankReferenceNumber) ==>
              (PassesValidation(p) <==> p.paymentMethod != Upi)
    ensures Filled(p.details.upiTransactionId) && !Filled(p.details.bankReferenceNumber) ==>
              (PassesValidation(p) <==> p.paymentMethod != BankTransfer)
    ensures Filled(p.details.upiTransactionId) && Filled(p.details.bankReferenceNumber) ==>
              PassesValidation(p)
  {
  }

  /** Changing only the status and the admin fields of a stored payment never
      makes its save fail. */
  lemma StatusChangeKeepsValidation(p: Payment, s: PayStatus, notes: Option<string>,
                                    verifier: Option<UserId>, at: Option<int>)
    requires PassesValidation(p)
    ensures PassesValidation(p.(status := s, adminNotes := notes, verifiedBy := verifier, verifiedAt := at))
  {
  }

  // ---------------------------------------------------------------------------
  // Reservation validity

  /** `isReservationValid()` at instant `now`. */
  predicate IsReservationValid(p: Payment, now: int) {
    now < p.reservationExpiresAt && p.status == Pending
  }

  /** Validity is a window that closes at the deadline: a payment valid at some
      instant was valid at every earlier one, and at the deadline instant itself
      it is no longer valid. */
  lemma ReservationValidityWindow(p: Payment, earlier: int, later: int)
    requires earlier <= later
    ensures IsReservationValid(p, later) ==> IsReservationValid(p, earlier)
    ensures !IsReservationValid(p, p.reservationExpiresAt)
    ensures p.status != Pending ==> !IsReservationValid(p, earlier)
  {
  }

  // ---------------------------------------------------------------------------
  // Order ids

  function DigitChar(d: nat): (c: char)
    requires d < 10
    ensures IsAsciiDigit(c)
  {
    ('0' as int + d) as char
  }

  function DigitValue(c: char): (d: nat)
    requires IsAsciiDigit(c)
    ensures d < 10
  {
    c as int - '0' as int
  }

  /** `n.toString()` for a non-negative integer. */
  function Decimal(n: nat): (s: string)
    ensures |s| >= 1 && forall i :: 0 <= i < |s| ==> IsAsciiDigit(s[i])
  {
    if n < 10 then [DigitChar(n)] else Decimal(n / 10) + [DigitChar(n % 10)]
  }

  /** Reads a string of decimal digits back as a number. */
  function DecimalValue(s: string): nat
    requires forall i :: 0 <= i < |s| ==> IsAsciiDigit(s[i])
  {
    if |s| == 0 then 0 else DecimalValue(s[..|s| - 1]) * 10 + DigitValue(s[|s| - 1])
  }

  lemma {:induction false} DecimalRoundTrip(n: nat)
    ensures DecimalValue(Decimal(n)) == n
  {
    if n >= 10 {
      var s := Decimal(n);
      assert s[..|s| - 1] == Decimal(n / 10);
      DecimalRoundTrip(n / 10);
    }
  }

  /** The `generateOrderId` static: "GZ", the timestamp in decimal, then the
      first six base-36 digits of a random fraction in upper case. */
  function GenerateOrderId(now: nat, randomDigits: string): (r: string)
    ensures |r| >= 3 && r[..2] == "GZ"
    ensures var t := Decimal(now);
            2 + |t| <= |r| && r[2..2 + |t|] == t && DecimalValue(r[2..2 + |t|]) == now
    ensures |r| <= 2 + |Decimal(now)| + 6
  {
    var t := Decimal(now);
    var suffix := if |randomDigits| <= 6 then randomDigits else randomDigits[..6];
    DecimalRoundTrip(now);
    var r := "GZ" + t + ToUpperAscii(suffix);
    assert r[2..2 + |t|] == t;
    r
  }

  // ---------------------------------------------------------------------------
  // The stored collection

  /** Stored payments passed validation, and order ids are unique. */
  predicate ValidPayments(docs: seq<Payment>) {
    (forall i :: 0 <= i < |docs| ==> PassesValidation(docs[i]))
    && (forall i, j {:trigger DistinctOrderIds(docs[i], docs[j])} :: 0 <= i < j < |docs| ==>
          DistinctOrderIds(docs[i], docs[j]))
  }

  predicate DistinctOrderIds(p: Payment, q: Payment) {
    p.orderId != q.orderId
  }

  predicate FreshOrderId(docs: seq<Payment>, orderId: string) {
    forall i :: 0 <= i < |docs| ==> docs[i].orderId != orderId
  }

  /** `Payment.findOne({ orderId, userId })`. */
  function FindPayment(docs: seq<Payment>, orderId: string, user: UserId): (r: Option<nat>)
    ensures r.Some? ==> r.value < |docs| && docs[r.value].orderId == orderId && docs[r.value].userId == user
    ensures r.None? <==> forall j :: 0 <= j < |docs| ==> !(docs[j].orderId == orderId && docs[j].userId == user)
  {
    IndexWhere(docs, (p: Payment) => p.orderId == orderId && p.userId == user)
  }

  /** `Payment.findOne({ orderId })`. */
  function FindByOrderId(docs: seq<Payment>, orderId: string): (r: Option<nat>)
    ensures r.Some? ==> r.value < |docs| && docs[r.value].orderId == orderId
    ensures r.None? <==> forall j :: 0 <= j < |docs| ==> docs[j].orderId != orderId
  {
    IndexWhere(docs, (p: Payment) => p.orderId == orderId)
  }

  class PaymentCollection {
    var docs: seq<Payment>

    ghost predicate Valid()
      reads this
    {
      ValidPayments(docs)
    }

    constructor (initial: seq<Payment>)
      requires ValidPayments(initial)
      ensures docs == initial && Valid()
    {
      docs := initial;
    }

    /** `new Payment(p).save()`: stored when validation passes and the unique
        index on `orderId` accepts it. */
    method Insert(p: Payment) returns (saved: bool)
      requires Valid()
      modifies this
      ensures Valid()
      ensures saved == (PassesValidation(p) && FreshOrderId(old(docs), p.orderId))
      ensures docs == if saved then old(docs) + [p] else old(docs)
    {
      saved := PassesValidation(p) && FreshOrderId(docs, p.orderId);
      if saved {
        docs := docs + [p];
      }
    }

    /** `payment.save()` of the loaded document at position `i`. */
    method Save(i: nat, p: Payment) returns (saved: bool)
      requires Valid() && i < |docs| && p.orderId == docs[i].orderId
      modifies this
      ensures Valid()
      ensures saved == PassesValidation(p)
      ensures docs == if saved then old(docs)[i := p] else old(docs)
    {
      saved := PassesValidation(p);
      if saved {
        var updated := docs[i := p];
        forall a, b | 0 <= a < b < |updated|
          ensures DistinctOrderIds(updated[a], updated[b])
        {
          assert DistinctOrderIds(docs[a], docs[b]);
        }
        docs := updated;
      }
    }
  }
}
