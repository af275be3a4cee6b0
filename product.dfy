/** The inventory record of a unique (single-piece) item and the operations of
    its Mongoose model: the time virtuals, the three transitions, the bulk
    expiry sweep, the lazy-expiry query, and the two pre-save hooks. */
module Products {
  import opened Common

  // ---------------------------------------------------------------------------
  // Keys

  /** A product's `_id`: either a Mongo ObjectId, held as its lower-case hex
      text, or a custom string id stored verbatim. */
  datatype Key = NativeId(hex: string) | CustomId(text: string)

  /** An ObjectId is 24 lower-case hex digits; a custom id is anything that
      would not parse as one. */
  predicate WellFormedKey(k: Key) {
    match k
    case NativeId(h) => IsObjectIdHex(h) && ToLowerAscii(h) == h
    case CustomId(s) => !IsObjectIdHex(s)
  }

  /** `_id.toString()`. For a well-formed key the 24-hex test on this text tells
      the two kinds of id apart, which is what every `updateQuery` relies on. */
  function KeyText(k: Key): (s: string)
    ensures WellFormedKey(k) ==> (IsObjectIdHex(s) <==> k.NativeId?)
  {
    match k
    case NativeId(h) => h
    case CustomId(s) => s
  }

  // ---------------------------------------------------------------------------
  // The record

  datatype Status = Available | Reserved | Sold | OutOfStock

  /** One stored product. `reservedUntil` is an instant in milliseconds; an
      absent slug is the empty string. Catalogue-only fields (description,
      images, category, tags, SEO fields) play no part here. */
  datatype Product = Product(
    id: Key,
    productId: string,
    name: string,
    price: int,
    isSinglePiece: bool,
    status: Status,
    reservedUntil: Option<int>,
    reservationId: Option<string>,
    reservedBy: Option<UserId>,
    isAvailable: bool,
    slug: string)

  /** The `isReserved` virtual evaluated at instant `now`. */
  predicate IsReservedAt(p: Product, now: int) {
    p.status == Reserved && p.reservedUntil.Some? && now < p.reservedUntil.value
  }

  /** The `isReservationExpired` virtual evaluated at instant `now`. */
  predicate IsReservationExpiredAt(p: Product, now: int) {
    p.status == Reserved && p.reservedUntil.Some? && now >= p.reservedUntil.value
  }

  /** The two virtuals never hold together, and a reserved record with a
      deadline satisfies exactly one of them; the deadline instant itself is
      already expired. */
  lemma VirtualsPartitionReserved(p: Product, now: int)
    ensures !(IsReservedAt(p, now) && IsReservationExpiredAt(p, now))
    ensures p.status == Reserved && p.reservedUntil.Some? ==>
              (IsReservedAt(p, now) || IsReservationExpiredAt(p, now))
    ensures p.reservedUntil == Some(now) ==> !IsReservedAt(p, now)
    ensures p.status != Reserved || p.reservedUntil.None? ==>
              !IsReservedAt(p, now) && !IsReservationExpiredAt(p, now)
  {
  }

  // ---------------------------------------------------------------------------
  // Stores of products

  /** What every stored collection satisfies: well-formed keys, a non-empty
      `productId` (it is `required`), and both `_id` and `productId` unique. */
  predicate ValidDocs(docs: seq<Product>) {
    (forall i :: 0 <= i < |docs| ==> WellFormedKey(docs[i].id) && docs[i].productId != "")
    && (forall i, j {:trigger DistinctKeys(docs[i], docs[j])} :: 0 <= i < j < |docs| ==>
          DistinctKeys(docs[i], docs[j]))
  }

  /** Two records that share neither `_id` nor `productId`. */
  predicate DistinctKeys(p: Product, q: Product) {
    p.id != q.id && p.productId != q.productId
  }

  /** Validity depends only on the keys. */
  lemma SameKeysKeepValid(a: seq<Product>, b: seq<Product>)
    requires ValidDocs(a)
    requires |a| == |b| && forall j :: 0 <= j < |a| ==> a[j].id == b[j].id && a[j].productId == b[j].productId
    ensures ValidDocs(b)
  {
    forall i, j | 0 <= i < j < |b|
      ensures DistinctKeys(b[i], b[j])
    {
      assert DistinctKeys(a[i], a[j]);
    }
  }

  /** The filters the handlers use to find one product. */
  datatype Query =
    | ById(key: Key)          // { _id: key }, findById
    | ByProductId(pid: string) // { productId: pid }

  predicate Matches(p: Product, q: Query) {
    match q
    case ById(k) => p.id == k
    case ByProductId(pid) => p.productId == pid
  }

  /** `findOne(q)`: the first record in natural order that matches. */
  function FindFirst(docs: seq<Product>, q: Query): (r: Option<nat>)
    ensures r.Some? ==> r.value < |docs| && Matches(docs[r.value], q)
    ensures r.None? <==> forall j :: 0 <= j < |docs| ==> !Matches(docs[j], q)
  {
    IndexWhere(docs, (p: Product) => Matches(p, q))
  }

  /** In a valid store a record is the only one with its `_id` and the only one
      with its `productId`, so both queries find exactly that record. */
  lemma FindFirstUnique(docs: seq<Product>, i: nat)
    requires ValidDocs(docs) && i < |docs|
    ensures FindFirst(docs, ById(docs[i].id)) == Some(i)
    ensures FindFirst(docs, ByProductId(docs[i].productId)) == Some(i)
  {
    forall j | 0 <= j < |docs| && j != i
      ensures docs[j].id != docs[i].id && docs[j].productId != docs[i].productId
    {
      if j < i {
        assert DistinctKeys(docs[j], docs[i]);
      } else {
        assert DistinctKeys(docs[i], docs[j]);
      }
    }
    IndexWhereUnique(docs, (p: Product) => Matches(p, ById(docs[i].id)), i);
    IndexWhereUnique(docs, (p: Product) => Matches(p, ByProductId(docs[i].productId)), i);
  }

  /** `findById(s)`: a 24-hex string is cast to an ObjectId (hex case does not
      matter); any other string finds nothing. */
  function FindByIdText(docs: seq<Product>, s: string): (r: Option<nat>)
    ensures r.Some? ==> IsObjectIdHex(s) && r.value < |docs|
                        && docs[r.value].id == NativeId(ToLowerAscii(s))
    ensures !IsObjectIdHex(s) ==> r.None?
  {
    if IsObjectIdHex(s) then FindFirst(docs, ById(NativeId(ToLowerAscii(s)))) else None
  }

  /** The single-query dispatch: a 24-hex string is looked up by `_id` only,
      anything else by `productId` only. */
  function FindByKeyText(docs: seq<Product>, s: string): (r: Option<nat>)
    ensures r.Some? ==> r.value < |docs|
    ensures IsObjectIdHex(s) ==> r == FindByIdText(docs, s)
    ensures !IsObjectIdHex(s) ==> r == FindFirst(docs, ByProductId(s))
  {
    if IsObjectIdHex(s) then FindByIdText(docs, s) else FindFirst(docs, ByProductId(s))
  }

  /** `findOne({ $or: [{ _id: s }, { productId: s }] })`: the first record whose
      ObjectId is `s` or whose `productId` is `s`. */
  function FindByIdOrProductId(docs: seq<Product>, s: string): (r: Option<nat>)
    ensures r.Some? ==> r.value < |docs|
                        && ((IsObjectIdHex(s) && docs[r.value].id == NativeId(ToLowerAscii(s)))
                            || docs[r.value].productId == s)
    ensures r.None? ==> forall j :: 0 <= j < |docs| ==>
              (docs[j].productId != s && !(IsObjectIdHex(s) && docs[j].id == NativeId(ToLowerAscii(s))))
  {
    IndexWhere(docs, (p: Product) =>
      (IsObjectIdHex(s) && p.id == NativeId(ToLowerAscii(s))) || p.productId == s)
  }

  /** The `updateQuery` every handler builds from a loaded record: by `_id` when
      its text is 24-hex, else by `productId`. */
  function UpdateQueryFor(p: Product): Query {
    if IsObjectIdHex(KeyText(p.id)) then ById(p.id) else ByProductId(p.productId)
  }

  /** The `updateQuery` of a stored record finds that same record again. */
  lemma UpdateQueryTargetsRecord(docs: seq<Product>, i: nat)
    requires ValidDocs(docs) && i < |docs|
    ensures FindFirst(docs, UpdateQueryFor(docs[i])) == Some(i)
  {
    FindFirstUnique(docs, i);
  }

  // ---------------------------------------------------------------------------
  // Field updates

  /** How an update treats `reservedBy`. */
  datatype HolderUpdate = KeepHolder | SetHolder(holder: Option<UserId>)

  /** A `$set` of the four reservation fields, as `updateOne`,
      `findByIdAndUpdate` and the handlers' field assignments write them. */
  datatype Patch = Patch(
    status: Status,
    reservedUntil: Option<int>,
    reservationId: Option<string>,
    holder: HolderUpdate)

  /** Applying a patch writes the reservation fields it names and nothing else;
      in particular `isAvailable` is not re-synchronised, since updates issued
      through the query API bypass the save hooks. */
  function Apply(p: Product, u: Patch): (r: Product)
    ensures r.status == u.status && r.reservedUntil == u.reservedUntil
            && r.reservationId == u.reservationId
    ensures r.reservedBy == (if u.holder.SetHolder? then u.holder.holder else p.reservedBy)
    ensures r.(status := p.status, reservedUntil := p.reservedUntil,
               reservationId := p.reservationId, reservedBy := p.reservedBy) == p
  {
    p.(status := u.status, reservedUntil := u.reservedUntil, reservationId := u.reservationId,
       reservedBy := if u.holder.SetHolder? then u.holder.holder else p.reservedBy)
  }

  /** Back to available with the deadline and reservation id cleared; some
      call sites also clear the holder, others leave it. */
  function ReleasePatch(clearHolder: bool): Patch {
    Patch(Available, None, None, if clearHolder then SetHolder(None) else KeepHolder)
  }

  function SoldPatch(clearHolder: bool): Patch {
    Patch(Sold, None, None, if clearHolder then SetHolder(None) else KeepHolder)
  }

  function ReservePatch(until: int, reservationId: string, holder: HolderUpdate): Patch {
    Patch(Reserved, Some(until), Some(reservationId), holder)
  }

  /** `updateOne(q, { $set: u })`: patches the first match, if any. */
  function UpdateFirst(docs: seq<Product>, q: Query, u: Patch): (r: seq<Product>)
    ensures |r| == |docs|
    ensures FindFirst(docs, q).None? ==> r == docs
    ensures FindFirst(docs, q).Some? ==>
              var i := FindFirst(docs, q).value;
              r[i] == Apply(docs[i], u) && forall j :: 0 <= j < |docs| && j != i ==> r[j] == docs[j]
  {
    match FindFirst(docs, q)
    case None => docs
    case Some(i) => docs[i := Apply(docs[i], u)]
  }

  /** Replacing a record by one with the same `_id` and `productId` keeps a
      store valid. */
  lemma ReplaceKeepsValid(docs: seq<Product>, i: nat, p: Product)
    requires ValidDocs(docs) && i < |docs|
    requires p.id == docs[i].id && p.productId == docs[i].productId
    ensures ValidDocs(docs[i := p])
  {
    SameKeysKeepValid(docs, docs[i := p]);
  }

  /** Two stores whose records agree position by position on `_id` and
      `productId`. */
  predicate SameKeys(a: seq<Product>, b: seq<Product>) {
    |a| == |b| && forall j :: 0 <= j < |a| ==> a[j].id == b[j].id && a[j].productId == b[j].productId
  }

  /** Lookups read only the keys, so stores with the same keys answer every
      query alike. */
  lemma FindFirstSameKeys(a: seq<Product>, b: seq<Product>, q: Query)
    requires SameKeys(a, b)
    ensures FindFirst(a, q) == FindFirst(b, q)
  {
    IndexWhereCongruent(a, (p: Product) => Matches(p, q), b, (p: Product) => Matches(p, q));
  }

  lemma UpdateFirstKeepsValid(docs: seq<Product>, q: Query, u: Patch)
    requires ValidDocs(docs)
    ensures ValidDocs(UpdateFirst(docs, q, u))
  {
    if FindFirst(docs, q).Some? {
      var i := FindFirst(docs, q).value;
      ReplaceKeepsValid(docs, i, Apply(docs[i], u));
    }
  }

  // ---------------------------------------------------------------------------
  // Bulk expiry

  /** The filter `{ inventoryStatus: 'reserved', reservedUntil: { $lt: now } }`. */
  predicate SweepDue(p: Product, now: int) {
    p.status == Reserved && p.reservedUntil.Some? && p.reservedUntil.value < now
  }

  /** `updateMany` of that filter with the release patch. */
  function Sweep(docs: seq<Product>, now: int, clearHolder: bool): (r: seq<Product>)
    ensures |r| == |docs|
  {
    seq(|docs|, i requires 0 <= i < |docs| =>
      if SweepDue(docs[i], now) then Apply(docs[i], ReleasePatch(clearHolder)) else docs[i])
  }

  /** Number of records the filter selects. */
  function CountDue(docs: seq<Product>, now: int): nat {
    if |docs| == 0 then 0
    else (if SweepDue(docs[0], now) then 1 else 0) + CountDue(docs[1..], now)
  }

  /** Number of positions at which two equally long stores differ: Mongo's
      `modifiedCount`. */
  function ChangedCount(a: seq<Product>, b: seq<Product>): nat
    requires |a| == |b|
  {
    if |a| == 0 then 0
    else (if a[0] != b[0] then 1 else 0) + ChangedCount(a[1..], b[1..])
  }

  /** Each selected record becomes available with the reservation fields
      cleared (the holder too when asked) and keeps its identity; every other
      record is left exactly as it was. */
  lemma SweepEffect(docs: seq<Product>, now: int, clearHolder: bool, i: nat)
    requires i < |docs|
    ensures var r := Sweep(docs, now, clearHolder)[i];
            if SweepDue(docs[i], now) then
              r.status == Available && r.reservedUntil.None? && r.reservationId.None?
              && (clearHolder ==> r.reservedBy.None?)
              && (!clearHolder ==> r.reservedBy == docs[i].reservedBy)
              && r.id == docs[i].id && r.productId == docs[i].productId
              && r.isAvailable == docs[i].isAvailable
            else r == docs[i]
  {
  }

  /** The count the sweep reports is the number of records it changed, and
      equals the number the filter selected. */
  lemma {:induction false} SweepCountIsModifiedCount(docs: seq<Product>, now: int, clearHolder: bool)
    ensures ChangedCount(docs, Sweep(docs, now, clearHolder)) == CountDue(docs, now)
    decreases |docs|
  {
    if |docs| > 0 {
      var r := Sweep(docs, now, clearHolder);
      assert r[1..] == Sweep(docs[1..], now, clearHolder);
      SweepCountIsModifiedCount(docs[1..], now, clearHolder);
      assert SweepDue(docs[0], now) ==> r[0].status != docs[0].status;
    }
  }

  /** After a sweep nothing is left for the same filter, so a second sweep at
      the same instant changes nothing. */
  lemma SweepIdempotent(docs: seq<Product>, now: int, clearHolder: bool)
    ensures forall i :: 0 <= i < |docs| ==> !SweepDue(Sweep(docs, now, clearHolder)[i], now)
    ensures Sweep(Sweep(docs, now, clearHolder), now, clearHolder) == Sweep(docs, now, clearHolder)
  {
  }

  lemma SweepKeepsValid(docs: seq<Product>, now: int, clearHolder: bool)
    requires ValidDocs(docs)
    ensures ValidDocs(Sweep(docs, now, clearHolder))
  {
    var r := Sweep(docs, now, clearHolder);
    assert forall i :: 0 <= i < |r| ==> r[i].id == docs[i].id && r[i].productId == docs[i].productId;
    SameKeysKeepValid(docs, r);
  }

  // ---------------------------------------------------------------------------
  // Lazy expiry

  /** The `findAvailable` filter: available, or reserved with a deadline
      already in the past. */
  predicate LazilyAvailable(p: Product, now: int) {
    p.status == Available || SweepDue(p, now)
  }

  /** `findAvailable()`: the lazily available records, in natural order. */
  function FindAvailable(docs: seq<Product>, now: int): (r: seq<Product>)
    ensures |r| <= |docs|
    ensures forall p :: p in r <==> p in docs && LazilyAvailable(p, now)
  {
    if |docs| == 0 then []
    else if LazilyAvailable(docs[0], now) then [docs[0]] + FindAvailable(docs[1..], now)
    else
      assert forall p :: p in docs <==> p == docs[0] || p in docs[1..];
      FindAvailable(docs[1..], now)
  }

  /** The lazy query and the bulk sweep agree: a record is returned by
      `findAvailable` exactly when the sweep at the same instant leaves it
      available. */
  lemma LazyQueryAgreesWithSweep(docs: seq<Product>, now: int, clearHolder: bool, i: nat)
    requires i < |docs|
    ensures docs[i] in FindAvailable(docs, now) <==> Sweep(docs, now, clearHolder)[i].status == Available
  {
  }

  // ---------------------------------------------------------------------------
  // Slug generation

  predicate IsSlugChar(c: char) { IsAsciiLower(c) || IsAsciiDigit(c) || c == '-' }

  /** A well-formed slug: only `[a-z0-9-]`, no `--` run, no dash at either end. */
  predicate IsSlug(s: string) {
    (forall i :: 0 <= i < |s| ==> IsSlugChar(s[i]))
    && (forall i :: 0 <= i < |s| - 1 ==> !(s[i] == '-' && s[i + 1] == '-'))
    && (s == [] || (s[0] != '-' && s[|s| - 1] != '-'))
  }

  /** `.toLowerCase().replace(/[^a-zA-Z0-9]/g, '-')`, one character at a time,
      with ASCII case folding only: every character outside `[A-Za-z0-9]`
      becomes a dash. */
  function DashChar(c: char): (d: char)
    ensures IsSlugChar(d)
    ensures IsSlugChar(c) ==> d == c
  {
    var l := LowerAscii(c);
    if IsAsciiAlnum(l) then l else '-'
  }

  function Dashify(s: string): (r: string)
    ensures |r| == |s| && forall i :: 0 <= i < |s| ==> r[i] == DashChar(s[i])
  {
    seq(|s|, i requires 0 <= i < |s| => DashChar(s[i]))
  }

  /** `.replace(/-+/g, '-')`. */
  function CollapseDashes(s: string): (r: string)
    ensures |s| == 0 <==> |r| == 0
    ensures |s| > 0 ==> r[0] == s[0] && r[|r| - 1] == s[|s| - 1]
    ensures (forall i :: 0 <= i < |s| ==> IsSlugChar(s[i])) ==> forall i :: 0 <= i < |r| ==> IsSlugChar(r[i])
    ensures forall i :: 0 <= i < |r| - 1 ==> !(r[i] == '-' && r[i + 1] == '-')
    decreases |s|
  {
    if |s| == 0 then s
    else if |s| >= 2 && s[0] == '-' && s[1] == '-' then CollapseDashes(s[1..])
    else [s[0]] + CollapseDashes(s[1..])
  }

  /** `.replace(/^-|-$/g, '')`. */
  function TrimDashes(s: string): (r: string)
    ensures |r| <= |s|
    ensures |s| > 0 && s[0] != '-' ==> |r| > 0 && r[0] == s[0]
    ensures var k := if |s| > 0 && s[0] == '-' then 1 else 0; k + |r| <= |s| && r == s[k..k + |r|]
  {
    var t := if |s| > 0 && s[0] == '-' then s[1..] else s;
    if |t| > 0 && t[|t| - 1] == '-' then t[..|t| - 1] else t
  }

  /** The slug generated from a product name. */
  function Slugify(name: string): (r: string)
    ensures IsSlug(r)
  {
    var c := CollapseDashes(Dashify(name));
    TrimDashesMakesSlug(c);
    TrimDashes(c)
  }

  /** Removing one dash at each end of a string of slug characters without a
      double dash leaves a slug. */
  lemma TrimDashesMakesSlug(c: string)
    requires forall i :: 0 <= i < |c| ==> IsSlugChar(c[i])
    requires forall i :: 0 <= i < |c| - 1 ==> !(c[i] == '-' && c[i + 1] == '-')
    ensures IsSlug(TrimDashes(c))
  {
    var t := if |c| > 0 && c[0] == '-' then c[1..] else c;
    assert forall i :: 0 <= i < |t| - 1 ==> !(t[i] == '-' && t[i + 1] == '-') by {
      forall i | 0 <= i < |t| - 1
        ensures !(t[i] == '-' && t[i + 1] == '-')
      {
        if |c| > 0 && c[0] == '-' {
          assert t[i] == c[i + 1] && t[i + 1] == c[i + 2];
        }
      }
    }
    assert t != [] ==> t[0] != '-' by {
      if |c| > 0 && c[0] == '-' && t != [] {
        assert t[0] == c[1];
      }
    }
    var r := if |t| > 0 && t[|t| - 1] == '-' then t[..|t| - 1] else t;
    assert r == TrimDashes(c);
    assert forall i :: 0 <= i < |r| ==> r[i] == t[i];
    assert r != [] ==> r[|r| - 1] != '-' by {
      if |t| > 0 && t[|t| - 1] == '-' && r != [] {
        assert r[|r| - 1] == t[|t| - 2];
      }
    }
  }

  lemma {:induction false} CollapseDashesOfCollapsed(s: string)
    requires forall i :: 0 <= i < |s| - 1 ==> !(s[i] == '-' && s[i + 1] == '-')
    ensures CollapseDashes(s) == s
    decreases |s|
  {
    if |s| > 0 {
      CollapseDashesOfCollapsed(s[1..]);
      assert [s[0]] + s[1..] == s;
    }
  }

  /** Generating a slug from a slug gives it back. */
  lemma SlugifyIdempotent(name: string)
    ensures Slugify(Slugify(name)) == Slugify(name)
  {
    var s := Slugify(name);
    assert Dashify(s) == s;
    CollapseDashesOfCollapsed(s);
  }

  // ---------------------------------------------------------------------------
  // Pre-save hooks

  /** The two pre-save hooks in order: `isAvailable` follows the status, and a
      missing slug is generated when the name was modified. */
  function PreSave(p: Product, nameModified: bool): (r: Product)
    ensures r.isAvailable <==> r.status == Available
    ensures r.(isAvailable := p.isAvailable, slug := p.slug) == p
    ensures nameModified && p.slug == "" ==> r.slug == Slugify(p.name)
    ensures r.slug != p.slug ==> nameModified && p.slug == "" && IsSlug(r.slug)
  {
    p.(isAvailable := p.status == Available,
       slug := if nameModified && p.slug == "" then Slugify(p.name) else p.slug)
  }

  /** Running the hooks a second time changes nothing. */
  lemma PreSaveIdempotent(p: Product, nameModified: bool)
    ensures PreSave(PreSave(p, nameModified), false) == PreSave(p, nameModified)
  {
  }

  // ---------------------------------------------------------------------------
  // The stored collection

  /** The `products` collection, in natural order. */
  class ProductCollection {
    var docs: seq<Product>

    ghost predicate Valid()
      reads this
    {
      ValidDocs(docs)
    }

    constructor (initial: seq<Product>)
      requires ValidDocs(initial)
      ensures docs == initial && Valid()
    {
      docs := initial;
    }

    /** `updateOne(q, { $set: u })`; reports whether a record matched. */
    method UpdateOne(q: Query, u: Patch) returns (matched: bool)
      requires Valid()
      modifies this
      ensures Valid()
      ensures matched <==> FindFirst(old(docs), q).Some?
      ensures docs == UpdateFirst(old(docs), q, u)
    {
      UpdateFirstKeepsValid(docs, q, u);
      matched := FindFirst(docs, q).Some?;
      docs := UpdateFirst(docs, q, u);
    }

    /** `updateMany` of reserved records past their deadline back to
      available; returns `modifiedCount`. */
    method ReleaseLapsed(now: int, clearHolder: bool) returns (modified: nat)
      requires Valid()
      modifies this
      ensures Valid()
      ensures docs == Sweep(old(docs), now, clearHolder)
      ensures modified == ChangedCount(old(docs), docs) == CountDue(old(docs), now)
    {
      SweepKeepsValid(docs, now, clearHolder);
      SweepCountIsModifiedCount(docs, now, clearHolder);
      modified := CountDue(docs, now);
      docs := Sweep(docs, now, clearHolder);
    }

    /** The `cleanupExpiredReservations` static: the sweep that also clears
      the holder. */
    method CleanupExpiredReservations(now: int) returns (modified: nat)
      requires Valid()
      modifies this
      ensures Valid()
      ensures docs == Sweep(old(docs), now, true)
      ensures modified == ChangedCount(old(docs), docs) == CountDue(old(docs), now)
    {
      modified := ReleaseLapsed(now, true);
    }

    /** `abortTransaction()`: every write made in the session is undone. */
    method Restore(snapshot: seq<Product>)
      requires ValidDocs(snapshot)
      modifies this
      ensures Valid() && docs == snapshot
    {
      docs := snapshot;
    }

    /** Writes a saved document back over the record with the same `_id`. */
    method Store(p: Product)
      requires Valid() && Stored(docs, p)
      modifies this
      ensures Valid()
      ensures docs == old(docs)[FindFirst(old(docs), ById(p.id)).value := p]
    {
      ReplaceKeepsValid(docs, FindFirst(docs, ById(p.id)).value, p);
      docs := docs[FindFirst(docs, ById(p.id)).value := p];
    }
  }

  /** `p` is the current form of a record held by the store: same `_id`, same
      `productId`. */
  predicate Stored(docs: seq<Product>, p: Product) {
    var i := FindFirst(docs, ById(p.id));
    i.Some? && docs[i.value].productId == p.productId
  }

  lemma StoredAt(docs: seq<Product>, i: nat, p: Product)
    requires ValidDocs(docs) && i < |docs|
    requires p.id == docs[i].id && p.productId == docs[i].productId
    ensures Stored(docs, p) && FindFirst(docs, ById(p.id)) == Some(i)
  {
    FindFirstUnique(docs, i);
  }

  // ---------------------------------------------------------------------------
  // A loaded document

  /** A product document loaded from the store; the handlers and the model's
      instance methods assign its fields and then `save()` it. */
  class ProductDocument {
    const id: Key
    const productId: string
    var name: string
    const price: int
    const isSinglePiece: bool
    var status: Status
    var reservedUntil: Option<int>
    var reservationId: Option<string>
    var reservedBy: Option<UserId>
    var isAvailable: bool
    var slug: string
    var nameModified: bool

    function Value(): Product
      reads this
    {
      Product(id, productId, name, price, isSinglePiece, status, reservedUntil,
              reservationId, reservedBy, isAvailable, slug)
    }

    /** Loads a stored record; nothing is modified yet. */
    constructor Hydrate(p: Product)
      ensures Value() == p && !nameModified
    {
      id, productId, name, price, isSinglePiece := p.id, p.productId, p.name, p.price, p.isSinglePiece;
      status, reservedUntil, reservationId, reservedBy := p.status, p.reservedUntil, p.reservationId, p.reservedBy;
      isAvailable, slug := p.isAvailable, p.slug;
      nameModified := false;
    }

    method Rename(newName: string)
      modifies this
      ensures Value() == old(Value()).(name := newName) && nameModified
    {
      name := newName;
      nameModified := true;
    }

    /** `save()`: runs the pre-save hooks, then writes the document over its
        stored record. */
    method Save(coll: ProductCollection)
      requires coll.Valid() && Stored(coll.docs, Value())
      modifies this, coll
      ensures Value() == PreSave(old(Value()), old(nameModified)) && !nameModified
      ensures coll.Valid()
      ensures coll.docs == old(coll.docs)[FindFirst(old(coll.docs), ById(id)).value := Value()]
    {
      var p := PreSave(Value(), nameModified);
      isAvailable, slug := p.isAvailable, p.slug;
      nameModified := false;
      coll.Store(Value());
    }

    /** `reserve(reservationId, minutes = 15)`. */
    method Reserve(coll: ProductCollection, newReservationId: string, now: int, minutes: int := 15)
      requires coll.Valid() && Stored(coll.docs, Value())
      modifies this, coll
      ensures status == Reserved && reservedUntil == Some(now + minutes * MinuteMs)
      ensures reservationId == Some(newReservationId) && reservedBy == old(reservedBy)
      ensures !isAvailable && IsReservedAt(Value(), now) == (minutes > 0)
      ensures Value() == PreSave(Apply(old(Value()),
                           ReservePatch(now + minutes * MinuteMs, newReservationId, KeepHolder)), old(nameModified))
      ensures coll.Valid()
      ensures coll.docs == old(coll.docs)[FindFirst(old(coll.docs), ById(id)).value := Value()]
    {
      var until := now + minutes * MinuteMs;
      DeadlineAhead(now, minutes);
      ghost var before := Value();
      ghost var target := PreSave(Apply(before, ReservePatch(until, newReservationId, KeepHolder)), nameModified);
      status := Reserved;
      reservedUntil := Some(until);
      reservationId := Some(newReservationId);
      assert PreSave(Value(), nameModified) == target;
      Save(coll);
    }

    /** A deadline `minutes` from now lies ahead exactly when `minutes` is
        positive. */
    static lemma DeadlineAhead(now: int, minutes: int)
      ensures now + minutes * MinuteMs > now <==> minutes > 0
    {
      if minutes > 0 {
        assert minutes * MinuteMs >= MinuteMs;
      } else {
        assert minutes * MinuteMs <= 0;
      }
    }

    /** `releaseReservation()`: the holder is left as it was. */
    method ReleaseReservation(coll: ProductCollection)
      requires coll.Valid() && Stored(coll.docs, Value())
      modifies this, coll
      ensures status == Available && reservedUntil.None? && reservationId.None?
      ensures reservedBy == old(reservedBy) && isAvailable
      ensures Value() == PreSave(Apply(old(Value()), ReleasePatch(false)), old(nameModified))
      ensures coll.Valid()
      ensures coll.docs == old(coll.docs)[FindFirst(old(coll.docs), ById(id)).value := Value()]
    {
      ghost var before := Value();
      ghost var target := PreSave(Apply(before, ReleasePatch(false)), nameModified);
      status := Available;
      reservedUntil := None;
      reservationId := None;
      assert PreSave(Value(), nameModified) == target;
      Save(coll);
    }

    /** `markAsSold()`. */
    method MarkAsSold(coll: ProductCollection)
      requires coll.Valid() && Stored(coll.docs, Value())
      modifies this, coll
      ensures status == Sold && reservedUntil.None? && reservationId.None?
      ensures reservedBy == old(reservedBy) && !isAvailable
      ensures Value() == PreSave(Apply(old(Value()), SoldPatch(false)), old(nameModified))
      ensures coll.Valid()
      ensures coll.docs == old(coll.docs)[FindFirst(old(coll.docs), ById(id)).value := Value()]
    {
      ghost var before := Value();
      ghost var target := PreSave(Apply(before, SoldPatch(false)), nameModified);
      status := Sold;
      reservedUntil := None;
      reservationId := None;
      isAvailable := false;
      assert PreSave(Value(), nameModified) == target;
      Save(coll);
    }
  }

  /** The handlers' pattern of loading record `i`, assigning the status,
      deadline and reservation id a patch names (the holder is not touched),
      and calling `save()`. */
  method SaveFields(coll: ProductCollection, i: nat, u: Patch) returns (saved: Product)
    requires coll.Valid() && i < |coll.docs| && u.holder == KeepHolder
    modifies coll
    ensures coll.Valid()
    ensures saved == PreSave(Apply(old(coll.docs)[i], u), false)
    ensures coll.docs == old(coll.docs)[i := saved]
  {
    var product := new ProductDocument.Hydrate(coll.docs[i]);
    StoredAt(coll.docs, i, product.Value());
    ghost var before := product.Value();
    product.status := u.status;
    product.reservedUntil := u.reservedUntil;
    product.reservationId := u.reservationId;
    assert product.Value() == Apply(before, u);
    product.Save(coll);
    saved := product.Value();
  }
}
