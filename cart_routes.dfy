/** The cart routes: adding a product, replacing the item list with a
    sanitised copy of the request's list, removing a product's lines, and
    setting a line's quantity. Each handler edits the user's cart document
    through its instance methods or by assigning its item list, then saves. */
module CartRoutes {
  import opened Common
  import opened Products
  import opened Carts

  datatype Reply =
    | FieldsRequired
    | InvalidProductId
    | ProductNotFound
    | ItemsNotAnArray
    | ValidationFailed
    | CartNotFound
    | QuantityTooSmall
    | ItemNotInCart
    | Added
    | ItemsReplaced
    | Removed
    | QuantityUpdated

  /** A stored cart, or the empty cart `findOrCreate` makes for a user
      without one. */
  function CartOf(carts: map<UserId, CartValue>, user: UserId, now: int): (v: CartValue)
    ensures user in carts ==> v == carts[user]
    ensures user !in carts ==> v == EmptyCart(user, now)
  {
    if user in carts then carts[user] else EmptyCart(user, now)
  }

  /** A cart as a successful save leaves it: the items, the activity time
      `now`, and totals recomputed from the items. */
  function Saved(user: UserId, items: seq<CartItem>, status: CartStatus, now: int): (v: CartValue)
    ensures v.userId == user && v.items == items && v.status == status && v.lastActivity == now
    ensures TotalsFor(v.items, v.subtotal, v.shipping, v.tax, v.total)
  {
    var subtotal := Subtotal(items);
    var shipping := if subtotal > 0 then ShippingPaise else 0;
    CartValue(user, items, subtotal, shipping, Gst(subtotal), subtotal + shipping + Gst(subtotal), status, now)
  }

  /** The totals are a function of the items. */
  lemma TotalsDetermined(v: CartValue, now: int)
    requires TotalsFor(v.items, v.subtotal, v.shipping, v.tax, v.total) && v.lastActivity == now
    ensures v == Saved(v.userId, v.items, v.status, now)
  {
  }

  /** `Cart.findOrCreate(user)`: the user's slot now holds the cart that was
      found or the empty one that was created and saved. */
  method OpenCart(store: CartStore, user: UserId, now: int) returns (cart: Cart)
    requires store.Valid()
    modifies store
    ensures store.Valid() && fresh(cart) && cart.userId == user
    ensures cart.Value() == CartOf(old(store.carts), user, now)
    ensures store.carts == old(store.carts)[user := CartOf(old(store.carts), user, now)]
  {
    cart := store.FindOrCreate(user, now);
    if user in old(store.carts) {
      assert store.carts == old(store.carts)[user := old(store.carts)[user]];
    }
  }

  /** Writing a slot twice keeps the second value. */
  lemma Overwrite(m: map<UserId, CartValue>, u: UserId, a: CartValue, b: CartValue)
    ensures m[u := a][u := b] == m[u := b]
  {
  }

  predicate AllItemsValid(items: seq<CartItem>) {
    forall k :: 0 <= k < |items| ==> ItemPassesValidation(items[k])
  }

  // ---------------------------------------------------------------------------
  // POST /add

  /** The guards of POST /add: a present, non-empty id and name and a
      defined price; then an id that is not blank once trimmed. */
  function AddGuard(productId: Option<string>, name: Option<string>, price: Option<int>): (r: Option<Reply>)
    ensures r.None? <==> Filled(productId) && Filled(name) && price.Some? && Trim(productId.value) != ""
    ensures r.Some? ==> r.value == FieldsRequired || r.value == InvalidProductId
  {
    if !Filled(productId) || !Filled(name) || price.None? then Some(FieldsRequired)
    else if Trim(productId.value) == "" then Some(InvalidProductId)
    else None
  }

  /** Adding keeps every line valid exactly when the line is already in the
      cart (only its quantity grows; the name, price and reference sent are
      ignored) or the new line has a non-blank name, a non-negative price and
      a reference that casts to an ObjectId. */
  lemma AddedItemsValid(items: seq<CartItem>, productId: string, name: string, price: int,
                        image: Option<string>, productRef: Option<Key>)
    requires AllItemsValid(items) && Trim(productId) != ""
    ensures AllItemsValid(AddedItems(items, productId, name, price, image, productRef))
            <==> IndexOfId(items, Trim(productId)).Some? || (Trim(name) != "" && price >= 0 && RefCasts(productRef))
  {
    var id := Trim(productId);
    match IndexOfId(items, id)
    case Some(k) =>
      AddToExistingLineValid(items, k);
    case None =>
      var line := CartItem(id, Trim(name), price, if image.Some? then image.value else "", 1, productRef);
      AddNewLineValid(items, productId, line);
  }

  lemma AddToExistingLineValid(items: seq<CartItem>, k: nat)
    requires AllItemsValid(items) && k < |items|
    ensures AllItemsValid(items[k := items[k].(quantity := items[k].quantity + 1)])
  {
    assert ItemPassesValidation(items[k]);
    SetQuantityKeepsValid(items, k, items[k].quantity + 1);
  }

  lemma AddNewLineValid(items: seq<CartItem>, productId: string, line: CartItem)
    requires AllItemsValid(items) && Trim(productId) != "" && line.productId == Trim(productId) && line.quantity == 1
    ensures AllItemsValid(items + [line]) <==> line.name != "" && line.price >= 0 && RefCasts(line.productRef)
  {
    TrimIdempotent(productId);
    AllValidSnoc(items, line);
  }

  lemma AllValidSnoc(items: seq<CartItem>, c: CartItem)
    ensures AllItemsValid(items + [c]) <==> AllItemsValid(items) && ItemPassesValidation(c)
  {
    if AllItemsValid(items + [c]) {
      assert (items + [c])[|items|] == c;
      forall k | 0 <= k < |items|
        ensures ItemPassesValidation(items[k])
      {
        assert (items + [c])[k] == items[k];
      }
    }
  }

  /** POST /add: after the guards, the product is looked up by `_id` or
      `productId` with the trimmed id; the user's cart (created if missing)
      gets the line, and the save succeeds exactly when every line is valid. */
  method Add(store: CartStore, docs: seq<Product>, user: UserId, productId: Option<string>,
             name: Option<string>, price: Option<int>, image: Option<string>, now: int) returns (reply: Reply)
    requires store.Valid()
    modifies store
    ensures store.Valid()
    ensures AddGuard(productId, name, price).Some? ==>
              reply == AddGuard(productId, name, price).value && store.carts == old(store.carts)
    ensures AddGuard(productId, name, price).None? && FindByIdOrProductId(docs, Trim(productId.value)).None? ==>
              reply == ProductNotFound && store.carts == old(store.carts)
    ensures AddGuard(productId, name, price).None? && FindByIdOrProductId(docs, Trim(productId.value)).Some? ==>
              var base := CartOf(old(store.carts), user, now);
              var items := AddedItems(base.items, productId.value, name.value, price.value, image,
                                      Some(docs[FindByIdOrProductId(docs, Trim(productId.value)).value].id));
              (reply == Added <==> IndexOfId(base.items, Trim(productId.value)).Some?
                                   || (Trim(name.value) != "" && price.value >= 0
                                       && docs[FindByIdOrProductId(docs, Trim(productId.value)).value].id.NativeId?))
              && (reply == Added || reply == ValidationFailed)
              && (reply == Added ==> store.carts == old(store.carts)[user := Saved(user, items, base.status, now)])
              && (reply == ValidationFailed ==> store.carts == old(store.carts)[user := base])
  {
    var guard := AddGuard(productId, name, price);
    if guard.Some? {
      return guard.value;
    }
    var located := FindByIdOrProductId(docs, Trim(productId.value));
    if located.None? {
      return ProductNotFound;
    }
    reply := AddLine(store, user, productId.value, name.value, price.value, image, docs[located.value].id, now);
  }

  /** The part of POST /add after the product was found: `addItem` on the
      user's cart with the product's `_id` as reference, then `save`. */
  method AddLine(store: CartStore, user: UserId, productId: string, name: string, price: int,
                 image: Option<string>, ref: Key, now: int) returns (reply: Reply)
    requires store.Valid() && Trim(productId) != ""
    modifies store
    ensures store.Valid()
    ensures var base := CartOf(old(store.carts), user, now);
            var items := AddedItems(base.items, productId, name, price, image, Some(ref));
            (reply == Added <==> IndexOfId(base.items, Trim(productId)).Some?
                                 || (Trim(name) != "" && price >= 0 && ref.NativeId?))
            && (reply == Added || reply == ValidationFailed)
            && (reply == Added ==> store.carts == old(store.carts)[user := Saved(user, items, base.status, now)])
            && (reply == ValidationFailed ==> store.carts == old(store.carts)[user := base])
  {
    var cart := OpenCart(store, user, now);
    ghost var base := cart.Value();
    assert AllItemsValid(base.items) by {
      assert CartPassesValidation(base);
    }
    cart.AddItem(productId, name, price, image, Some(ref));
    AddedItemsValid(base.items, productId, name, price, image, Some(ref));
    assert RefCasts(Some(ref)) == ref.NativeId?;
    ghost var ok := IndexOfId(base.items, Trim(productId)).Some? || (Trim(name) != "" && price >= 0 && RefCasts(Some(ref)));
    assert AllItemsValid(cart.Value().items) == ok;
    if ok {
      TotalsOfValidItemsValid(cart.Value());
    }
    var saved := cart.Save(store, now);
    assert saved == ok;
    if saved {
      TotalsDetermined(cart.Value(), now);
      Overwrite(old(store.carts), user, base, cart.Value());
      reply := Added;
    } else {
      reply := ValidationFailed;
    }
  }

  // ---------------------------------------------------------------------------
  // PUT /items

  /** One element of the request's `items` array, as sent: any field may be
      missing. */
  datatype RawItem = RawItem(
    productId: Option<string>,
    name: Option<string>,
    price: Option<int>,
    image: Option<string>,
    quantity: Option<int>)

  /** The sanitising filter: a present element with a non-blank id, a name,
      a defined price and a positive quantity. */
  predicate Accepted(x: Option<RawItem>) {
    x.Some? && Filled(x.value.productId) && Trim(x.value.productId.value) != ""
    && Filled(x.value.name) && x.value.price.Some? && x.value.quantity.Some? && x.value.quantity.value > 0
  }

  /** The sanitising map: the trimmed id, the name (trimmed by the schema's
      setter), the price, the image or '', the quantity; no product reference. */
  function Clean(x: Option<RawItem>): (c: CartItem)
    requires Accepted(x)
    ensures c.productId == Trim(x.value.productId.value) && c.quantity >= 1 && c.productRef.None?
  {
    var it := x.value;
    CartItem(Trim(it.productId.value), Trim(it.name.value), it.price.value,
             if Filled(it.image) then it.image.value else "", it.quantity.value, None)
  }

  /** `items.filter(...).map(...)`. */
  function Sanitize(xs: seq<Option<RawItem>>): (r: seq<CartItem>)
    ensures |r| <= |xs|
  {
    if |xs| == 0 then []
    else if Accepted(xs[0]) then [Clean(xs[0])] + Sanitize(xs[1..])
    else Sanitize(xs[1..])
  }

  /** A cleaned element passes the item validators exactly when its name is
      not blank and its price is not negative. */
  lemma CleanPasses(x: Option<RawItem>)
    requires Accepted(x)
    ensures ItemPassesValidation(Clean(x)) <==> Clean(x).name != "" && Clean(x).price >= 0
  {
    TrimIdempotent(x.value.productId.value);
  }

  /** A cleaned element with a non-blank name and a non-negative price. */
  predicate CleanSavable(x: Option<RawItem>)
    requires Accepted(x)
  {
    Clean(x).name != "" && Clean(x).price >= 0
  }

  /** What the sanitised list needs to save: every accepted element has a
      non-blank name and a non-negative price. */
  predicate SavableRequest(xs: seq<Option<RawItem>>) {
    forall j :: 0 <= j < |xs| && Accepted(xs[j]) ==> CleanSavable(xs[j])
  }

  lemma SavableCons(xs: seq<Option<RawItem>>)
    requires |xs| > 0
    ensures SavableRequest(xs) <==> (Accepted(xs[0]) ==> CleanSavable(xs[0])) && SavableRequest(xs[1..])
  {
    if (Accepted(xs[0]) ==> CleanSavable(xs[0])) && SavableRequest(xs[1..]) {
      forall j | 1 <= j < |xs| && Accepted(xs[j])
        ensures CleanSavable(xs[j])
      {
        assert xs[1..][j - 1] == xs[j];
      }
    }
  }

  lemma AllValidCons(c: CartItem, r: seq<CartItem>)
    ensures AllItemsValid([c] + r) <==> ItemPassesValidation(c) && AllItemsValid(r)
  {
    var s := [c] + r;
    assert s[0] == c;
    assert forall k :: 0 <= k < |r| ==> s[k + 1] == r[k];
    if ItemPassesValidation(c) && AllItemsValid(r) {
      forall k | 0 < k < |s|
        ensures ItemPassesValidation(s[k])
      {
        assert s[k] == r[k - 1];
      }
    }
  }

  /** The sanitised list passes the item validators exactly when every
      accepted element has a non-blank name and a non-negative price. */
  lemma {:induction false} SanitizeValid(xs: seq<Option<RawItem>>)
    ensures AllItemsValid(Sanitize(xs)) <==> SavableRequest(xs)
    decreases |xs|
  {
    if |xs| > 0 {
      SanitizeValid(xs[1..]);
      SavableCons(xs);
      if Accepted(xs[0]) {
        CleanPasses(xs[0]);
        AllValidCons(Clean(xs[0]), Sanitize(xs[1..]));
      }
    }
  }

  /** A stored line as a request element. */
  function AsRaw(c: CartItem): Option<RawItem> {
    Some(RawItem(Some(c.productId), Some(c.name), Some(c.price), Some(c.image), Some(c.quantity)))
  }

  function AsRawList(cs: seq<CartItem>): (r: seq<Option<RawItem>>)
    ensures |r| == |cs| && forall k :: 0 <= k < |cs| ==> r[k] == AsRaw(cs[k])
  {
    seq(|cs|, k requires 0 <= k < |cs| => AsRaw(cs[k]))
  }

  lemma AsRawListCons(c: CartItem, cs: seq<CartItem>)
    ensures AsRawList([c] + cs)[0] == AsRaw(c) && AsRawList([c] + cs)[1..] == AsRawList(cs)
  {
  }

  /** Sending back a list the handler saved stores the same list: the
      sanitising filter and map are idempotent on savable requests. */
  lemma {:induction false} SanitizeIdempotent(xs: seq<Option<RawItem>>)
    requires SavableRequest(xs)
    ensures Sanitize(AsRawList(Sanitize(xs))) == Sanitize(xs)
    decreases |xs|
  {
    if |xs| > 0 {
      SavableCons(xs);
      SanitizeIdempotent(xs[1..]);
      if Accepted(xs[0]) {
        var c := Clean(xs[0]);
        var tail := Sanitize(xs[1..]);
        CleanIdempotent(xs[0]);
        AsRawListCons(c, tail);
      }
    }
  }

  lemma CleanIdempotent(x: Option<RawItem>)
    requires Accepted(x) && CleanSavable(x)
    ensures Accepted(AsRaw(Clean(x))) && Clean(AsRaw(Clean(x))) == Clean(x)
  {
    TrimIdempotent(x.value.productId.value);
    TrimIdempotent(x.value.name.value);
  }

  /** PUT /items: the user's cart (created if missing) gets the sanitised
      list in place of its items; the save succeeds exactly when the request
      is savable. */
  method ReplaceItems(store: CartStore, user: UserId, items: Option<seq<Option<RawItem>>>, now: int)
    returns (reply: Reply)
    requires store.Valid()
    modifies store
    ensures store.Valid()
    ensures items.None? ==> reply == ItemsNotAnArray && store.carts == old(store.carts)
    ensures items.Some? ==>
              var base := CartOf(old(store.carts), user, now);
              (reply == ItemsReplaced <==> SavableRequest(items.value))
              && (reply == ItemsReplaced || reply == ValidationFailed)
              && (reply == ItemsReplaced ==>
                    store.carts == old(store.carts)[user := Saved(user, Sanitize(items.value), base.status, now)])
              && (reply == ValidationFailed ==> store.carts == old(store.carts)[user := base])
  {
    if items.None? {
      return ItemsNotAnArray;
    }
    var cart := OpenCart(store, user, now);
    ghost var base := cart.Value();
    cart.items := Sanitize(items.value);
    SanitizeValid(items.value);
    assert CartPassesValidation(cart.Value()) <==> SavableRequest(items.value) by {
      assert cart.Value().subtotal >= 0 && cart.Value().shipping >= 0 && cart.Value().tax >= 0 && cart.Value().total >= 0 by {
        assert CartPassesValidation(base);
      }
    }
    var saved := cart.Save(store, now);
    if saved {
      TotalsDetermined(cart.Value(), now);
      Overwrite(old(store.carts), user, base, cart.Value());
      reply := ItemsReplaced;
    } else {
      reply := ValidationFailed;
    }
  }

  // ---------------------------------------------------------------------------
  // DELETE /:productId

  /** The handler's own filter: keep the lines whose trimmed id differs from
      the trimmed path id. */
  function KeepOthers(items: seq<CartItem>, productId: string): (r: seq<CartItem>)
    ensures |r| <= |items|
  {
    Filter(items, (it: CartItem) => Trim(it.productId) != Trim(productId))
  }

  /** The filter keeps exactly the lines whose trimmed id differs. */
  lemma KeepOthersMembers(items: seq<CartItem>, productId: string)
    ensures forall it :: it in KeepOthers(items, productId) <==> it in items && Trim(it.productId) != Trim(productId)
  {
    FilterMembers(items, (it: CartItem) => Trim(it.productId) != Trim(productId));
  }

  /** Stored ids are already trimmed, so the handler's filter is the model's
      `removeItem` filter. */
  lemma {:induction false} KeepOthersIsRemoveMatching(items: seq<CartItem>, productId: string)
    requires forall k :: 0 <= k < |items| ==> Trim(items[k].productId) == items[k].productId
    ensures KeepOthers(items, productId) == RemoveMatching(items, Trim(productId))
    decreases |items|
  {
    if |items| > 0 {
      KeepOthersIsRemoveMatching(items[1..], productId);
    }
  }

  /** The handler's filter keeps the order of the lines: it distributes over
      concatenation, and a single line is kept exactly when its trimmed id
      differs. Together these fix the result line by line and in order. */
  lemma KeepOthersKeepsOrder(a: seq<CartItem>, b: seq<CartItem>, x: CartItem, productId: string)
    ensures KeepOthers(a + b, productId) == KeepOthers(a, productId) + KeepOthers(b, productId)
    ensures KeepOthers([x], productId) == if Trim(x.productId) == Trim(productId) then [] else [x]
  {
    var keep := (it: CartItem) => Trim(it.productId) != Trim(productId);
    FilterAppend(a, b, keep);
    FilterSingle(x, keep);
  }

  /** Every line the filter keeps was valid before, so the filtered cart
      still passes validation. */
  lemma {:induction false} KeepOthersKeepsValid(items: seq<CartItem>, productId: string)
    requires AllItemsValid(items)
    ensures AllItemsValid(KeepOthers(items, productId))
    decreases |items|
  {
    if |items| > 0 {
      KeepOthersKeepsValid(items[1..], productId);
      var rest := KeepOthers(items[1..], productId);
      if Trim(items[0].productId) != Trim(productId) {
        assert ItemPassesValidation(items[0]);
        var r := [items[0]] + rest;
        forall k | 0 <= k < |r|
          ensures ItemPassesValidation(r[k])
        {
          if k > 0 {
            assert r[k] == rest[k - 1];
          }
        }
      }
    }
  }

  /** DELETE /:productId: a user without a stored cart gets 404; otherwise
      the lines with that id go and the cart is saved, whether or not any
      line matched. */
  method RemoveProduct(store: CartStore, user: UserId, productId: string, now: int) returns (reply: Reply)
    requires store.Valid()
    modifies store
    ensures store.Valid()
    ensures user !in old(store.carts) ==> reply == CartNotFound && store.carts == old(store.carts)
    ensures user in old(store.carts) ==>
              var base := old(store.carts)[user];
              reply == Removed
              && store.carts == old(store.carts)[user := Saved(user, KeepOthers(base.items, productId), base.status, now)]
  {
    if user !in store.carts {
      return CartNotFound;
    }
    var cart := new Cart.Hydrate(store.carts[user]);
    ghost var base := cart.Value();
    cart.items := KeepOthers(cart.items, productId);
    KeepOthersKeepsValid(base.items, productId);
    var saved := cart.Save(store, now);
    TotalsDetermined(cart.Value(), now);
    reply := Removed;
  }

  // ---------------------------------------------------------------------------
  // PUT /items/:productId/quantity

  /** The guards: a non-blank id, then a present quantity of at least one. */
  function QuantityGuard(productId: string, quantity: Option<int>): (r: Option<Reply>)
    ensures r.None? <==> Trim(productId) != "" && quantity.Some? && quantity.value >= 1
  {
    if Trim(productId) == "" then Some(InvalidProductId)
    else if quantity.None? || quantity.value < 1 then Some(QuantityTooSmall)
    else None
  }

  /** PUT /items/:productId/quantity: sets the quantity of the line with the
      trimmed id in the user's cart (created if missing); 404 when there is
      no such line. The guard lets only quantities of at least one through,
      so the route never removes a line, and the save always succeeds. */
  method SetQuantity(store: CartStore, user: UserId, productId: string, quantity: Option<int>, now: int)
    returns (reply: Reply)
    requires store.Valid()
    modifies store
    ensures store.Valid()
    ensures QuantityGuard(productId, quantity).Some? ==>
              reply == QuantityGuard(productId, quantity).value && store.carts == old(store.carts)
    ensures QuantityGuard(productId, quantity).None? ==>
              var base := CartOf(old(store.carts), user, now);
              match IndexOfId(base.items, Trim(productId))
              case None =>
                reply == ItemNotInCart && store.carts == old(store.carts)[user := base]
              case Some(k) =>
                reply == QuantityUpdated
                && store.carts == old(store.carts)[user := Saved(user, base.items[k := base.items[k].(quantity := quantity.value)],
                                                                 base.status, now)]
  {
    var guard := QuantityGuard(productId, quantity);
    if guard.Some? {
      return guard.value;
    }
    var cart := OpenCart(store, user, now);
    ghost var base := cart.Value();
    ghost var at := IndexOfId(base.items, Trim(productId));
    assert AllItemsValid(base.items) by {
      assert CartPassesValidation(base);
    }
    var found := cart.UpdateQuantity(productId, quantity.value);
    if !found {
      assert at.None?;
      return ItemNotInCart;
    }
    ghost var updated := base.items[at.value := base.items[at.value].(quantity := quantity.value)];
    assert cart.items == updated;
    SetQuantityKeepsValid(base.items, at.value, quantity.value);
    TotalsOfValidItemsValid(cart.Value());
    var saved := cart.Save(store, now);
    assert saved;
    TotalsDetermined(cart.Value(), now);
    assert cart.Value() == Saved(user, updated, base.status, now);
    Overwrite(old(store.carts), user, base, cart.Value());
    reply := QuantityUpdated;
  }

  lemma SetQuantityKeepsValid(items: seq<CartItem>, k: nat, q: int)
    requires AllItemsValid(items) && k < |items| && q >= 1
    ensures AllItemsValid(items[k := items[k].(quantity := q)])
  {
    assert ItemPassesValidation(items[k]);
  }
}
