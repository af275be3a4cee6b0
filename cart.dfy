/** A user's shopping cart: an item list edited in place by the model's
    instance methods, totals recomputed by a loop, a pre-save hook, and the
    per-user store with its find-or-create and abandoned-cart statics. */
module Carts {
  import opened Common
  import opened Products

  /** One line of a cart. The schema's `trim` setters have already been
      applied to `productId` and `name`; money is in paise. */
  datatype CartItem = CartItem(
    productId: string,
    name: string,
    price: int,
    image: string,
    quantity: int,
    productRef: Option<Key>)

  datatype CartStatus = Active | Processing | Completed | Abandoned

  datatype CartValue = CartValue(
    userId: UserId,
    items: seq<CartItem>,
    subtotal: int,
    shipping: int,
    tax: int,
    total: int,
    status: CartStatus,
    lastActivity: int)

  // ---------------------------------------------------------------------------
  // Totals

  /** `(item.price || 0) * (item.quantity || 1)`: a zero quantity counts as one. */
  function LineAmount(it: CartItem): int {
    it.price * (if it.quantity == 0 then 1 else it.quantity)
  }

  /** The sum of the line amounts, accumulated from the front. */
  function Subtotal(items: seq<CartItem>): int {
    if |items| == 0 then 0 else Subtotal(items[..|items| - 1]) + LineAmount(items[|items| - 1])
  }

  /** What `recalculateTotals` establishes: the subtotal of the items, 99
      rupees shipping on a non-empty subtotal, 18% GST, and their sum. */
  predicate TotalsFor(items: seq<CartItem>, subtotal: int, shipping: int, tax: int, total: int) {
    subtotal == Subtotal(items)
    && shipping == (if subtotal > 0 then ShippingPaise else 0)
    && tax == Gst(subtotal)
    && total == subtotal + shipping + tax
  }

  /** No two lines share a `productId`. */
  predicate UniqueIds(items: seq<CartItem>) {
    forall i, j :: 0 <= i < j < |items| ==> items[i].productId != items[j].productId
  }

  /** `items.findIndex(item => item.productId === id)`. */
  function IndexOfId(items: seq<CartItem>, id: string): (r: Option<nat>)
    ensures r.Some? ==> r.value < |items| && items[r.value].productId == id
    ensures r.None? <==> forall j :: 0 <= j < |items| ==> items[j].productId != id
  {
    IndexWhere(items, (it: CartItem) => it.productId == id)
  }

  /** `items.filter(item => item.productId !== id)`. */
  function RemoveMatching(items: seq<CartItem>, id: string): (r: seq<CartItem>)
    ensures |r| <= |items|
    ensures forall it :: it in r <==> it in items && it.productId != id
    ensures |r| == |items| <==> forall j :: 0 <= j < |items| ==> items[j].productId != id
    ensures (forall j :: 0 <= j < |items| ==> items[j].productId != id) ==> r == items
  {
    if |items| == 0 then []
    else if items[0].productId == id then RemoveMatching(items[1..], id)
    else
      assert forall it :: it in items <==> it == items[0] || it in items[1..];
      [items[0]] + RemoveMatching(items[1..], id)
  }

  /** Removing by id keeps `productId`s unique. */
  lemma {:induction false} RemoveMatchingKeepsIdsUnique(items: seq<CartItem>, id: string)
    requires UniqueIds(items)
    ensures UniqueIds(RemoveMatching(items, id))
    decreases |items|
  {
    if |items| > 0 {
      RemoveMatchingKeepsIdsUnique(items[1..], id);
      var rest := RemoveMatching(items[1..], id);
      if items[0].productId != id {
        assert forall it :: it in rest ==> it in items[1..];
        assert forall k :: 0 <= k < |rest| ==> rest[k] in items[1..];
      }
    }
  }

  /** A single line is kept exactly when its id differs. */
  lemma RemoveMatchingSingle(x: CartItem, id: string)
    ensures RemoveMatching([x], id) == if x.productId == id then [] else [x]
  {
  }

  /** Removal is an order-preserving filter: it distributes over
      concatenation. With `RemoveMatchingSingle` this fixes the result on
      every list, line by line and in order. */
  lemma {:induction false} RemoveMatchingKeepsOrder(a: seq<CartItem>, b: seq<CartItem>, id: string)
    ensures RemoveMatching(a + b, id) == RemoveMatching(a, id) + RemoveMatching(b, id)
    decreases |a|
  {
    if |a| == 0 {
      assert a + b == b;
    } else {
      var rest := a[1..];
      assert (a + b)[0] == a[0];
      assert (a + b)[1..] == rest + b;
      RemoveMatchingKeepsOrder(rest, b, id);
      var ra, rb := RemoveMatching(rest, id), RemoveMatching(b, id);
      if a[0].productId != id {
        assert RemoveMatching(a + b, id) == [a[0]] + (ra + rb);
        assert [a[0]] + (ra + rb) == ([a[0]] + ra) + rb;
      }
    }
  }

  // ---------------------------------------------------------------------------
  // Validation and the pre-save filter

  /** The item schema's validators: a non-empty id (its custom validator), a
      required name, a non-negative price and a quantity of at least one; and
      the ObjectId cast of `productRef`, which a string `_id` cannot pass. */
  predicate ItemPassesValidation(it: CartItem) {
    Trim(it.productId) != "" && it.name != "" && it.price >= 0 && it.quantity >= 1
    && RefCasts(it.productRef)
  }

  /** An absent reference, or one that casts to an ObjectId. */
  predicate RefCasts(ref: Option<Key>) {
    ref.None? || ref.value.NativeId?
  }

  /** The cart schema's validators: every item, and non-negative totals. */
  predicate CartPassesValidation(v: CartValue) {
    (forall k :: 0 <= k < |v.items| ==> ItemPassesValidation(v.items[k]))
    && v.subtotal >= 0 && v.shipping >= 0 && v.tax >= 0 && v.total >= 0
  }

  /** The pre-save filter: keep items whose id is non-blank after trimming. */
  function KeepNonBlankIds(items: seq<CartItem>): (r: seq<CartItem>)
    ensures |r| <= |items|
    ensures forall k :: 0 <= k < |r| ==> Trim(r[k].productId) != ""
    ensures forall it :: it in items && Trim(it.productId) != "" ==> it in r
    ensures forall it :: it in r ==> it in items
  {
    if |items| == 0 then []
    else if Trim(items[0].productId) == "" then KeepNonBlankIds(items[1..])
    else
      assert forall it :: it in items <==> it == items[0] || it in items[1..];
      [items[0]] + KeepNonBlankIds(items[1..])
  }

  /** Validation runs before the pre-save hooks, so on a cart that passed it the
      filter removes nothing. */
  lemma {:induction false} FilterAfterValidationKeepsAll(items: seq<CartItem>)
    requires forall k :: 0 <= k < |items| ==> ItemPassesValidation(items[k])
    ensures KeepNonBlankIds(items) == items
    decreases |items|
  {
    if |items| > 0 {
      assert ItemPassesValidation(items[0]);
      FilterAfterValidationKeepsAll(items[1..]);
      assert [items[0]] + items[1..] == items;
    }
  }

  lemma {:induction false} SubtotalNonNegative(items: seq<CartItem>)
    requires forall k :: 0 <= k < |items| ==> ItemPassesValidation(items[k])
    ensures Subtotal(items) >= 0
    decreases |items|
  {
    if |items| > 0 {
      LineAmountNonNegative(items[|items| - 1]);
      SubtotalNonNegative(items[..|items| - 1]);
    }
  }

  lemma LineAmountNonNegative(it: CartItem)
    requires ItemPassesValidation(it)
    ensures LineAmount(it) >= 0
  {
    var q := it.quantity;
    assert it.price * q >= 0 by {
      assert it.price >= 0 && q >= 1;
    }
  }

  /** Totals recomputed over valid items pass the totals' validators. */
  lemma TotalsOfValidItemsValid(v: CartValue)
    requires forall k :: 0 <= k < |v.items| ==> ItemPassesValidation(v.items[k])
    requires TotalsFor(v.items, v.subtotal, v.shipping, v.tax, v.total)
    ensures CartPassesValidation(v)
  {
    SubtotalNonNegative(v.items);
  }

  // ---------------------------------------------------------------------------
  // Summary

  datatype SummaryLine = SummaryLine(
    productId: string, name: string, price: int, image: string, quantity: int, itemTotal: int)

  datatype CartSummary = CartSummary(
    itemsCount: int, subtotal: int, shipping: int, tax: int, total: int, lines: seq<SummaryLine>)

  /** `items.reduce((sum, item) => sum + item.quantity, 0)`. */
  function QuantitySum(items: seq<CartItem>): int {
    if |items| == 0 then 0 else QuantitySum(items[..|items| - 1]) + items[|items| - 1].quantity
  }

  /** The `items.map` of `getSummary()`: each line copies the item's id, name,
      price, image and quantity, and adds price times quantity. */
  function SummaryLines(items: seq<CartItem>): (r: seq<SummaryLine>)
    ensures |r| == |items|
    ensures forall k :: 0 <= k < |items| ==>
              r[k].productId == items[k].productId && r[k].name == items[k].name
              && r[k].price == items[k].price && r[k].image == items[k].image
              && r[k].quantity == items[k].quantity
              && r[k].itemTotal == items[k].price * items[k].quantity
  {
    seq(|items|, k requires 0 <= k < |items| =>
      var it := items[k];
      SummaryLine(it.productId, it.name, it.price, it.image, it.quantity, it.price * it.quantity))
  }

  function ItemTotalSum(lines: seq<SummaryLine>): int {
    if |lines| == 0 then 0 else ItemTotalSum(lines[..|lines| - 1]) + lines[|lines| - 1].itemTotal
  }

  /** `getSummary()`. */
  function GetSummary(v: CartValue): (s: CartSummary)
    ensures s.itemsCount == QuantitySum(v.items)
    ensures s.subtotal == v.subtotal && s.shipping == v.shipping && s.tax == v.tax && s.total == v.total
    ensures s.lines == SummaryLines(v.items)
    ensures |s.lines| == |v.items|
    ensures forall k :: 0 <= k < |v.items| ==>
              s.lines[k].productId == v.items[k].productId && s.lines[k].name == v.items[k].name
              && s.lines[k].price == v.items[k].price && s.lines[k].image == v.items[k].image
              && s.lines[k].quantity == v.items[k].quantity
              && s.lines[k].itemTotal == v.items[k].price * v.items[k].quantity
  {
    CartSummary(QuantitySum(v.items), v.subtotal, v.shipping, v.tax, v.total, SummaryLines(v.items))
  }

  /** On a cart of valid items whose totals are current, the summary counts at
      least one unit per line and its line totals add up to the subtotal. */
  lemma {:induction false} SummaryAgreesWithTotals(items: seq<CartItem>)
    requires forall k :: 0 <= k < |items| ==> items[k].quantity >= 1
    ensures ItemTotalSum(SummaryLines(items)) == Subtotal(items)
    ensures QuantitySum(items) >= |items|
    decreases |items|
  {
    if |items| > 0 {
      var init := items[..|items| - 1];
      SummaryAgreesWithTotals(init);
      assert SummaryLines(items)[..|items| - 1] == SummaryLines(init);
    }
  }

  // ---------------------------------------------------------------------------
  // The cart document

  class Cart {
    const userId: UserId
    var items: seq<CartItem>
    var subtotal: int
    var shipping: int
    var tax: int
    var total: int
    var status: CartStatus
    var lastActivity: int

    function Value(): CartValue
      reads this
    {
      CartValue(userId, items, subtotal, shipping, tax, total, status, lastActivity)
    }

    /** Loads a stored cart. */
    constructor Hydrate(v: CartValue)
      ensures Value() == v
    {
      userId, items, subtotal, shipping, tax, total := v.userId, v.items, v.subtotal, v.shipping, v.tax, v.total;
      status, lastActivity := v.status, v.lastActivity;
    }

    /** `new Cart({ userId, items: [] ... })`: empty, zero totals, active. */
    constructor Create(user: UserId, now: int)
      ensures Value() == EmptyCart(user, now)
    {
      userId, items, subtotal, shipping, tax, total := user, [], 0, 0, 0, 0;
      status, lastActivity := Active, now;
    }

    /** `recalculateTotals()`. */
    method RecalculateTotals()
      modifies this
      ensures items == old(items) && status == old(status) && lastActivity == old(lastActivity)
      ensures TotalsFor(items, subtotal, shipping, tax, total)
    {
      var sum := 0;
      for k := 0 to |items|
        invariant sum == Subtotal(items[..k])
      {
        assert items[..k + 1][..k] == items[..k];
        sum := sum + LineAmount(items[k]);
      }
      assert items[..|items|] == items;
      subtotal := sum;
      shipping := if sum > 0 then ShippingPaise else 0;
      tax := Gst(sum);
      total := sum + shipping + tax;
    }

    /** `addItem(productData)`: one more unit of a line already present, or a
        new line of quantity one with the trimmed id. */
    method AddItem(productId: string, name: string, price: int, image: Option<string>, productRef: Option<Key>)
      modifies this
      ensures items == AddedItems(old(items), productId, name, price, image, productRef)
      ensures UniqueIds(old(items)) ==> UniqueIds(items)
      ensures status == old(status) && lastActivity == old(lastActivity)
      ensures TotalsFor(items, subtotal, shipping, tax, total)
    {
      var id := Trim(productId);
      match IndexOfId(items, id) {
        case Some(k) =>
          items := items[k := items[k].(quantity := items[k].quantity + 1)];
        case None =>
          items := items + [CartItem(id, Trim(name), price, if image.Some? then image.value else "", 1, productRef)];
      }
      assert items == AddedItems(old(items), productId, name, price, image, productRef);
      RecalculateTotals();
    }

    /** `removeItem(productId)`: drops every line with the trimmed id; the
        totals are recomputed only when something was removed. */
    method RemoveItem(productId: string) returns (removed: bool)
      modifies this
      ensures items == RemoveMatching(old(items), Trim(productId))
      ensures removed <==> |items| < |old(items)|
      ensures removed <==> IndexOfId(old(items), Trim(productId)).Some?
      ensures removed ==> TotalsFor(items, subtotal, shipping, tax, total)
      ensures !removed ==> Value() == old(Value())
      ensures status == old(status) && lastActivity == old(lastActivity)
    {
      var initialLength := |items|;
      items := RemoveMatching(items, Trim(productId));
      if |items| < initialLength {
        RecalculateTotals();
        removed := true;
      } else {
        removed := false;
      }
    }

    /** `updateQuantity(productId, quantity)`: false and no change when the
        id is absent; otherwise the line is removed (quantity below one) or
        its quantity set. */
    method UpdateQuantity(productId: string, quantity: int) returns (found: bool)
      modifies this
      ensures found <==> IndexOfId(old(items), Trim(productId)).Some?
      ensures !found ==> Value() == old(Value())
      ensures status == old(status) && lastActivity == old(lastActivity)
      ensures found ==>
                var k := IndexOfId(old(items), Trim(productId)).value;
                (quantity < 1 ==> items == old(items)[..k] + old(items)[k + 1..])
                && (quantity >= 1 ==> items == old(items)[k := old(items)[k].(quantity := quantity)])
                && TotalsFor(items, subtotal, shipping, tax, total)
    {
      match IndexOfId(items, Trim(productId))
      case None =>
        found := false;
      case Some(k) =>
        if quantity < 1 {
          items := items[..k] + items[k + 1..];
        } else {
          items := items[k := items[k].(quantity := quantity)];
        }
        RecalculateTotals();
        found := true;
    }

    /** `clearCart()`. */
    method ClearCart()
      modifies this
      ensures items == [] && subtotal == 0 && shipping == 0 && tax == 0 && total == 0
      ensures status == old(status) && lastActivity == old(lastActivity)
      ensures TotalsFor(items, subtotal, shipping, tax, total)
    {
      items := [];
      subtotal, shipping, tax, total := 0, 0, 0, 0;
    }

    /** `save()`: validation first; then the pre-save hook stamps the
        activity time, filters blank ids and recomputes the totals, and the
        cart is written to its user's slot. */
    method Save(store: CartStore, now: int) returns (saved: bool)
      requires store.Valid()
      modifies this, store
      ensures store.Valid()
      ensures saved == CartPassesValidation(old(Value()))
      ensures !saved ==> Value() == old(Value()) && store.carts == old(store.carts)
      ensures saved ==> items == old(items) && status == old(status) && lastActivity == now
                        && TotalsFor(items, subtotal, shipping, tax, total)
                        && store.carts == old(store.carts)[userId := Value()]
    {
      saved := CartPassesValidation(Value());
      if saved {
        lastActivity := now;
        FilterAfterValidationKeepsAll(items);
        items := KeepNonBlankIds(items);
        RecalculateTotals();
        TotalsOfValidItemsValid(Value());
        store.Put(Value());
      }
    }
  }

  /** The item list after `addItem`: one more unit of the line whose id is
      the trimmed id, or else a new line of quantity one. */
  function AddedItems(items: seq<CartItem>, productId: string, name: string, price: int,
                      image: Option<string>, productRef: Option<Key>): (r: seq<CartItem>)
    ensures var id := Trim(productId);
            match IndexOfId(items, id)
            case Some(k) =>
              |r| == |items| && r[k] == items[k].(quantity := items[k].quantity + 1)
              && forall j :: 0 <= j < |r| && j != k ==> r[j] == items[j]
            case None =>
              |r| == |items| + 1 && r[..|items|] == items
              && r[|items|] == CartItem(id, Trim(name), price, if image.Some? then image.value else "", 1, productRef)
  {
    var id := Trim(productId);
    match IndexOfId(items, id)
    case Some(k) => items[k := items[k].(quantity := items[k].quantity + 1)]
    case None => items + [CartItem(id, Trim(name), price, if image.Some? then image.value else "", 1, productRef)]
  }

  function EmptyCart(user: UserId, now: int): (v: CartValue)
    ensures v.items == [] && v.status == Active && CartPassesValidation(v)
  {
    CartValue(user, [], 0, 0, 0, 0, Active, now)
  }

  // ---------------------------------------------------------------------------
  // The store of carts

  const DayMs: int := 24 * 60 * MinuteMs

  /** The `findAbandonedCarts`/`cleanupAbandonedCarts` filter: an active cart
      untouched since before `now - days` (calendar days taken as 24 hours). */
  predicate IdleSince(v: CartValue, now: int, days: int) {
    v.status == Active && v.lastActivity < now - days * DayMs
  }

  /** The carts, one per user. */
  class CartStore {
    var carts: map<UserId, CartValue>

    ghost predicate Valid()
      reads this
    {
      forall u :: u in carts ==> carts[u].userId == u && CartPassesValidation(carts[u])
    }

    constructor ()
      ensures carts == map[] && Valid()
    {
      carts := map[];
    }

    method Put(v: CartValue)
      requires Valid() && CartPassesValidation(v)
      modifies this
      ensures Valid() && carts == old(carts)[v.userId := v]
    {
      carts := carts[v.userId := v];
    }

    /** The `findOrCreate` static: the user's stored cart unchanged, or a new
        empty cart that is saved first. */
    method FindOrCreate(user: UserId, now: int) returns (cart: Cart)
      requires Valid()
      modifies this
      ensures Valid() && fresh(cart)
      ensures user in old(carts) ==> cart.Value() == old(carts)[user] && carts == old(carts)
      ensures user !in old(carts) ==> cart.Value() == EmptyCart(user, now)
                                      && carts == old(carts)[user := EmptyCart(user, now)]
    {
      if user in carts {
        cart := new Cart.Hydrate(carts[user]);
      } else {
        cart := new Cart.Create(user, now);
        var saved := cart.Save(this, now);
      }
    }

    /** `findAbandonedCarts(days = 7)`. */
    function FindAbandonedCarts(now: int, days: int := 7): (r: set<UserId>)
      reads this
      ensures forall u :: u in r <==> u in carts && IdleSince(carts[u], now, days)
    {
      set u | u in carts && IdleSince(carts[u], now, days)
    }

    /** `cleanupAbandonedCarts(days = 30)`: deletes the idle carts that are
        also empty and reports how many went. */
    method CleanupAbandonedCarts(now: int, days: int := 30) returns (deleted: nat)
      requires Valid()
      modifies this
      ensures Valid()
      ensures forall u :: u in carts <==> u in old(carts) && !(IdleSince(old(carts)[u], now, days) && old(carts)[u].items == [])
      ensures forall u :: u in carts ==> carts[u] == old(carts)[u]
      ensures deleted == |old(carts).Keys - carts.Keys|
    {
      var kept := map u | u in carts && !(IdleSince(carts[u], now, days) && carts[u].items == []) :: carts[u];
      deleted := |carts.Keys - kept.Keys|;
      carts := kept;
    }
  }
}
