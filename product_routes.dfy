/** The public product routes: the availability dictionary with lazy expiry
    and its write-back, the single-product lookup, the status report, and the
    can-reserve verdict. */
module ProductRoutes {
  import opened Common
  import opened Products

  // ---------------------------------------------------------------------------
  // GET /availability

  /** One entry of the availability dictionary. */
  datatype Listing = Listing(
    productId: string,
    name: string,
    price: int,
    status: Status,
    isSinglePiece: bool,
    reservedUntil: Option<int>,
    reservedBy: Option<UserId>,
    isAvailable: bool,
    isReserved: bool,
    canBeReserved: bool)

  /** The entry for one record at `now`: a reservation already past its
      deadline is shown as available with no deadline and no holder. */
  function ListingOf(p: Product, now: int): (e: Listing)
    ensures e.isAvailable <==> LazilyAvailable(p, now)
    ensures e.isReserved <==> IsReservedAt(p, now)
    ensures e.canBeReserved <==> LazilyAvailable(p, now) && p.isSinglePiece
    ensures e.isReserved ==> !e.isAvailable
    ensures SweepDue(p, now) ==> e.reservedUntil.None? && e.reservedBy.None?
    ensures !SweepDue(p, now) ==> e.status == p.status && e.reservedUntil == p.reservedUntil && e.reservedBy == p.reservedBy
  {
    var lapsed := SweepDue(p, now);
    var status := if lapsed then Available else p.status;
    var until := if lapsed then None else p.reservedUntil;
    var holder := if lapsed then None else p.reservedBy;
    var available := status == Available;
    Listing(p.productId, p.name, p.price, status, p.isSinglePiece, until, holder,
            available, status == Reserved && until.Some? && now < until.value,
            available && p.isSinglePiece)
  }

  /** Adds one record's entry under its `_id` text and, when it has one,
      under its `productId`: the same entry both times. */
  function Put(view: map<string, Listing>, p: Product, now: int): map<string, Listing> {
    var v := view[KeyText(p.id) := ListingOf(p, now)];
    if p.productId != "" then v[p.productId := ListingOf(p, now)] else v
  }

  /** The dictionary the `forEach` builds over the records in natural order. */
  function View(docs: seq<Product>, now: int): map<string, Listing>
    decreases |docs|
  {
    if |docs| == 0 then map[] else Put(View(docs[..|docs| - 1], now), docs[|docs| - 1], now)
  }

  /** What is queued for write-back: the keys of a record whose reservation
      lapsed. */
  datatype Queued = Queued(id: Key, productId: string)

  function Queue(docs: seq<Product>, now: int): seq<Queued>
    decreases |docs|
  {
    if |docs| == 0 then []
    else
      var p := docs[|docs| - 1];
      Queue(docs[..|docs| - 1], now) + if SweepDue(p, now) then [Queued(p.id, p.productId)] else []
  }

  lemma ViewStep(docs: seq<Product>, k: nat, now: int)
    requires k < |docs|
    ensures View(docs[..k + 1], now) == Put(View(docs[..k], now), docs[k], now)
  {
    assert docs[..k + 1][..k] == docs[..k];
  }

  lemma QueueStep(docs: seq<Product>, k: nat, now: int)
    requires k < |docs|
    ensures SweepDue(docs[k], now) ==> Queue(docs[..k + 1], now) == Queue(docs[..k], now) + [Queued(docs[k].id, docs[k].productId)]
    ensures !SweepDue(docs[k], now) ==> Queue(docs[..k + 1], now) == Queue(docs[..k], now)
  {
    assert docs[..k + 1][..k] == docs[..k];
  }

  /** The `updateQuery` of the write-back: by `_id` when its text is 24 hex
      digits, else by `productId` when there is one, else by `_id`. */
  function QueryFor(q: Queued): (r: Query)
    ensures WellFormedKey(q.id) && q.productId != "" ==>
              r == if q.id.NativeId? then ById(q.id) else ByProductId(q.productId)
  {
    if IsObjectIdHex(KeyText(q.id)) then ById(q.id)
    else if q.productId != "" then ByProductId(q.productId)
    else ById(q.id)
  }

  /** The write-back: each queued record is released and its holder cleared. */
  function Persist(docs: seq<Product>, queue: seq<Queued>): (r: seq<Product>)
    ensures SameKeys(docs, r)
    decreases |queue|
  {
    if |queue| == 0 then docs
    else UpdateFirst(Persist(docs, queue[..|queue| - 1]), QueryFor(queue[|queue| - 1]), ReleasePatch(true))
  }

  lemma PersistStep(docs: seq<Product>, queue: seq<Queued>, m: nat)
    requires m < |queue|
    ensures Persist(docs, queue[..m + 1])
            == UpdateFirst(Persist(docs, queue[..m]), QueryFor(queue[m]), ReleasePatch(true))
  {
    assert queue[..m + 1][..m] == queue[..m];
  }

  lemma PersistSnoc(docs: seq<Product>, queue: seq<Queued>, x: Queued)
    ensures Persist(docs, queue + [x]) == UpdateFirst(Persist(docs, queue), QueryFor(x), ReleasePatch(true))
  {
    assert (queue + [x])[..|queue|] == queue;
  }

  /** GET /availability: builds the dictionary in one pass over the records,
      queueing every lapsed reservation, then writes the queued records back
      as available with no deadline, reservation id or holder. */
  method Availability(products: ProductCollection, now: int) returns (view: map<string, Listing>)
    requires products.Valid()
    modifies products
    ensures products.Valid()
    ensures view == View(old(products.docs), now)
    ensures products.docs == Sweep(old(products.docs), now, true)
  {
    var docs := products.docs;
    var queue;
    view, queue := BuildView(docs, now);
    PersistIsSweep(docs, now);
    WriteBack(products, queue);
  }

  /** The `forEach` over the records. */
  method BuildView(docs: seq<Product>, now: int) returns (view: map<string, Listing>, queue: seq<Queued>)
    ensures view == View(docs, now) && queue == Queue(docs, now)
  {
    view := map[];
    queue := [];
    var k := 0;
    while k < |docs|
      invariant 0 <= k <= |docs|
      invariant view == View(docs[..k], now) && queue == Queue(docs[..k], now)
    {
      ViewStep(docs, k, now);
      QueueStep(docs, k, now);
      var p := docs[k];
      if SweepDue(p, now) {
        queue := queue + [Queued(p.id, p.productId)];
      }
      var entry := ListingOf(p, now);
      view := view[KeyText(p.id) := entry];
      if p.productId != "" {
        view := view[p.productId := entry];
      }
      k := k + 1;
    }
    assert docs[..k] == docs;
  }

  method WriteBack(products: ProductCollection, queue: seq<Queued>)
    requires products.Valid()
    modifies products
    ensures products.Valid() && products.docs == Persist(old(products.docs), queue)
  {
    ghost var docs0 := products.docs;
    var m := 0;
    while m < |queue|
      invariant 0 <= m <= |queue| && products.Valid()
      invariant products.docs == Persist(docs0, queue[..m])
    {
      PersistStep(docs0, queue, m);
      var matched := products.UpdateOne(QueryFor(queue[m]), ReleasePatch(true));
      m := m + 1;
    }
    assert queue[..m] == queue;
  }

  /** In a valid store the write-back of the queue is the bulk sweep at the
      same instant: the view's lazy expiry is persisted exactly. */
  lemma PersistIsSweep(docs: seq<Product>, now: int)
    requires ValidDocs(docs)
    ensures Persist(docs, Queue(docs, now)) == Sweep(docs, now, true)
  {
    var r := Persist(docs, Queue(docs, now));
    forall j | 0 <= j < |docs|
      ensures r[j] == Sweep(docs, now, true)[j]
    {
      assert docs[..|docs|] == docs;
      PersistAt(docs, |docs|, now, j);
    }
  }

  lemma {:induction false} PersistAt(docs: seq<Product>, n: nat, now: int, j: nat)
    requires ValidDocs(docs) && n <= |docs| && j < |docs|
    ensures Persist(docs, Queue(docs[..n], now))[j]
            == if j < n && SweepDue(docs[j], now) then Apply(docs[j], ReleasePatch(true)) else docs[j]
    decreases n
  {
    if n > 0 {
      var m := n - 1;
      var q := Queue(docs[..m], now);
      QueueStep(docs, m, now);
      PersistAt(docs, m, now, j);
      if SweepDue(docs[m], now) {
        var s := Persist(docs, q);
        PersistSnoc(docs, q, Queued(docs[m].id, docs[m].productId));
        SameKeysKeepValid(docs, s);
        QueuedTargetsOwnRecord(s, docs[m], m, j);
      }
    }
  }

  /** The query built from a record's keys updates that record and no other. */
  lemma QueuedTargetsOwnRecord(s: seq<Product>, p: Product, m: nat, j: nat)
    requires ValidDocs(s) && m < |s| && j < |s| && s[m].id == p.id && s[m].productId == p.productId
    ensures UpdateFirst(s, QueryFor(Queued(p.id, p.productId)), ReleasePatch(true))[j]
            == if j == m then Apply(s[j], ReleasePatch(true)) else s[j]
  {
    FindFirstUnique(s, m);
  }

  /** Keys never collide across records: no `productId` spells another
      record's `_id`. */
  predicate NoCrossKeys(docs: seq<Product>) {
    forall i, j :: 0 <= i < |docs| && 0 <= j < |docs| ==> docs[i].productId != KeyText(docs[j].id)
  }

  /** When keys do not collide, every record's entry is found under both its
      `_id` text and its `productId`, and both are that record's listing. */
  lemma {:induction false} ViewAt(docs: seq<Product>, now: int, i: nat)
    requires ValidDocs(docs) && NoCrossKeys(docs) && i < |docs|
    ensures KeyText(docs[i].id) in View(docs, now) && View(docs, now)[KeyText(docs[i].id)] == ListingOf(docs[i], now)
    ensures docs[i].productId in View(docs, now) && View(docs, now)[docs[i].productId] == ListingOf(docs[i], now)
    decreases |docs|
  {
    var n := |docs| - 1;
    var prefix := docs[..n];
    if i < n {
      assert ValidDocs(prefix) && NoCrossKeys(prefix) by {
        forall a, b | 0 <= a < b < |prefix|
          ensures DistinctKeys(prefix[a], prefix[b])
        {
          assert DistinctKeys(docs[a], docs[b]);
        }
      }
      ViewAt(prefix, now, i);
      assert prefix[i] == docs[i];
      assert DistinctKeys(docs[i], docs[n]);
      KeyTextInjective(docs[i].id, docs[n].id);
    }
  }

  /** Different well-formed keys have different texts. */
  lemma KeyTextInjective(a: Key, b: Key)
    requires WellFormedKey(a) && WellFormedKey(b) && a != b
    ensures KeyText(a) != KeyText(b)
  {
  }

  /** The view shows a lapsed hold as available, as the persisted sweep
      does; the write-back changes no record's entry. */
  lemma ViewAgreesWithSweep(docs: seq<Product>, now: int, i: nat)
    requires i < |docs|
    ensures ListingOf(Sweep(docs, now, true)[i], now) == ListingOf(docs[i], now)
  {
  }

  // ---------------------------------------------------------------------------
  // GET /:id

  /** Path segments that name other routes; `/:id` answers 404 for them. */
  predicate IsRouteName(id: string) {
    id == "availability" || id == "check-availability" || id == "status" || id == "can-reserve"
  }

  /** GET /:id: a route name is not a product; otherwise a 24-hex id is
      looked up by `_id` only and anything else by `productId` only. */
  function ProductById(docs: seq<Product>, id: string): (r: Option<nat>)
    ensures r.Some? ==> r.value < |docs| && !IsRouteName(id)
  {
    if IsRouteName(id) then None else FindByKeyText(docs, id)
  }

  /** The lookup finds a record exactly by `_id` for a 24-hex id and by
      `productId` otherwise; a record whose `productId` is a route name or
      is 24 hex digits cannot be reached under that `productId`. */
  lemma ProductByIdCases(docs: seq<Product>, id: string)
    requires ValidDocs(docs)
    ensures IsRouteName(id) ==> ProductById(docs, id).None?
    ensures !IsRouteName(id) && !IsObjectIdHex(id) ==>
              forall j :: 0 <= j < |docs| ==> (ProductById(docs, id) == Some(j) <==> docs[j].productId == id)
    ensures IsObjectIdHex(id) ==>
              forall j :: 0 <= j < |docs| ==> (ProductById(docs, id) == Some(j) <==> docs[j].id == NativeId(ToLowerAscii(id)))
  {
    assert !IsObjectIdHex("availability") && !IsObjectIdHex("check-availability")
           && !IsObjectIdHex("status") && !IsObjectIdHex("can-reserve") by {
      assert |"availability"| != 24 && |"check-availability"| != 24 && |"status"| != 24 && |"can-reserve"| != 24;
    }
    forall j | 0 <= j < |docs|
      ensures !IsRouteName(id) && !IsObjectIdHex(id) ==> (ProductById(docs, id) == Some(j) <==> docs[j].productId == id)
      ensures IsObjectIdHex(id) ==> (ProductById(docs, id) == Some(j) <==> docs[j].id == NativeId(ToLowerAscii(id)))
    {
      FindFirstUnique(docs, j);
    }
  }

  // ---------------------------------------------------------------------------
  // GET /:id/status

  datatype StatusReport = StatusReport(
    status: Status,
    reservedUntil: Option<int>,
    isAvailable: bool,
    isReserved: bool,
    canBeReserved: bool,
    timeLeft: int)

  /** The report for the stored record as it is: no lazy expiry here. */
  function StatusOf(p: Product, now: int): (r: StatusReport)
    ensures r.status == p.status && r.reservedUntil == p.reservedUntil
  {
    var reserved := p.status == Reserved && p.reservedUntil.Some? && now < p.reservedUntil.value;
    var available := p.status == Available;
    StatusReport(p.status, p.reservedUntil, available, reserved, available && p.isSinglePiece,
                 if reserved then Max(0, p.reservedUntil.value - now) else 0)
  }

  function Max(a: int, b: int): int { if a < b then b else a }

  /** The time left is the full remaining hold while the record is reserved
      and zero otherwise, so it is positive exactly while the hold runs. */
  lemma StatusTimeLeft(p: Product, now: int)
    ensures var r := StatusOf(p, now);
            r.isReserved == IsReservedAt(p, now)
            && r.timeLeft == (if IsReservedAt(p, now) then p.reservedUntil.value - now else 0)
            && (r.timeLeft > 0 <==> IsReservedAt(p, now))
            && r.timeLeft >= 0
  {
  }

  /** The two read routes disagree on a lapsed hold not yet swept: the
      dictionary reports it available, the status report does not. */
  lemma LapsedHoldViews(p: Product, now: int)
    requires SweepDue(p, now)
    ensures ListingOf(p, now).isAvailable && ListingOf(p, now).status == Available
    ensures !StatusOf(p, now).isAvailable && !StatusOf(p, now).isReserved && StatusOf(p, now).status == Reserved
  {
  }

  // ---------------------------------------------------------------------------
  // GET /:id/can-reserve

  datatype Verdict =
    | CanReserve
    | ProductNotFound
    | AlreadySold
    | CurrentlyReserved
    | ExpiredSoon
    | NotSinglePiece
    | NotAvailable

  /** The reasons are checked in order: sold, then reserved (running or
      lapsed), then not a single piece; anything else is "not available". */
  function CanReserveVerdict(docs: seq<Product>, id: string, now: int): (v: Verdict)
  {
    match FindByKeyText(docs, id)
    case None => ProductNotFound
    case Some(i) =>
      var p := docs[i];
      if p.status == Available && p.isSinglePiece then CanReserve
      else if p.status == Sold then AlreadySold
      else if p.status == Reserved then
        (if p.reservedUntil.Some? && now < p.reservedUntil.value then CurrentlyReserved else ExpiredSoon)
      else if !p.isSinglePiece then NotSinglePiece
      else NotAvailable
  }

  /** Each verdict in terms of the record found: only an available single
      piece can be reserved; an available multi-piece item is "not a single
      piece"; an out-of-stock single piece is merely "not available"; a
      lapsed hold is "expiring", not reservable. */
  lemma CanReserveCases(docs: seq<Product>, id: string, now: int)
    ensures var v := CanReserveVerdict(docs, id, now);
            match FindByKeyText(docs, id)
            case None => v == ProductNotFound
            case Some(i) =>
              var p := docs[i];
              (v == CanReserve <==> p.status == Available && p.isSinglePiece)
              && (v == AlreadySold <==> p.status == Sold)
              && (v == CurrentlyReserved <==> IsReservedAt(p, now))
              && (v == ExpiredSoon <==> p.status == Reserved && !IsReservedAt(p, now))
              && (v == NotSinglePiece <==> (p.status == Available || p.status == OutOfStock) && !p.isSinglePiece)
              && (v == NotAvailable <==> p.status == OutOfStock && p.isSinglePiece)
  {
  }
}
