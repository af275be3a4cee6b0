# Unique-item reservation core of the storefront backend

This project models the inventory and payment core of a single-piece clothing
storefront's Express/Mongoose backend. Every product is a one-off. A product
record moves between `available`, `reserved`, `sold` and `out_of_stock`. A
reservation carries a deadline (`reservedUntil`), a reservation id and a holder
(`reservedBy`).

Route handlers read a record, decide, and write it back. The handlers model:

- the manual UPI / bank-transfer flow, with lazy expiry before each claim;
- the gateway flow, with a five-minute hold;
- checkout orders, from buy-now and from the cart;
- admin verification and rejection;
- the public availability view;
- the shopping cart.

Each module corresponds to one source file:

| module | file | models |
|---|---|---|
| `Common` | (shared) | optional values, first-match search, JavaScript `trim`, the 24-hex ObjectId test, ceiling division, integer GST |
| `Products` | `models/Product.js` | the product record, the `isReserved`/`isReservationExpired` virtuals, `reserve`/`releaseReservation`/`markAsSold`, `findAvailable`, `cleanupExpiredReservations`, both pre-save hooks (the `isAvailable` sync and the slug), and the product collection with `updateOne` and `save` |
| `Payments` | `models/Payment.js` | the manual-payment ledger record, its validation (including the proof fields that are required depending on the method), `isReservationValid`, `generateOrderId`, and the payment collection |
| `Orders` | `models/Order.js` | the checkout order record and its validation, and the order collection |
| `Carts` | `models/Cart.js` | the `Cart` document as a class (`addItem`, `removeItem`, `updateQuantity`, `clearCart`, `recalculateTotals`, the pre-save filter, `getSummary`) and the cart store (`findOrCreate`, `findAbandonedCarts`, `cleanupAbandonedCarts`) |
| `ManualPayments` | `routes/manual-payments.js` | the six handlers, `getNextSteps`, the UPI and bank-reference validators |
| `Checkout` | `routes/checkout.js` | `checkProductAvailability`, `/buy-now`, `/cart`, `/confirm-payment`, `/cancel/:orderId` |
| `Gateway` | `routes/payments.js` | `/reserve`, `/create`, `/confirm`, `/release`, `/cleanup-expired` |
| `AdminPayments` | `routes/admin-payments.js` | `/verify`, `/reject`, the stats summary, the pagination arithmetic |
| `ProductRoutes` | `routes/products.js` | the `/availability` view and its write-back, `/:id`, `/:id/status`, `/:id/can-reserve` |
| `CartRoutes` | `routes/cart.js` | `/add`, `PUT /items`, `DELETE /:productId`, the quantity update |

## Modelling conventions

- A collection is a class whose `docs: seq<...>` field lists the stored documents in natural order.
  - `findOne` is the first match.
  - `updateOne` rewrites the first match.
- A product's `_id` is a `Key`: either `NativeId` (a 24-hex ObjectId, kept in lower case) or `CustomId` (a string id that is never 24 hex digits, since such a string would be an ObjectId).
  - A 24-hex string in a request is looked up by `_id`.
  - A lookup by `_id` with any other string finds nothing. This is Mongoose's cast error, folded into "not found".
- The clock `now` is an integer in milliseconds and is a parameter.
  - So are fresh reservation and order ids, and the gateway's approve/decline outcome.
- Money is integer. The cart's shipping is 99 units, written 9900 in paise.
- A handler that runs in a MongoDB transaction and aborts is modelled as restoring the snapshot it read. From outside, the whole handler is one atomic step.
- The Mongoose hooks are modelled where they run.
  - `save()` runs the product pre-save hook.
  - `updateOne`/`findByIdAndUpdate` write fields without hooks.
- Where the handlers differ from each other, each is modelled as written. Examples:
  - expiry at `<= now` in the manual flow but `< now` in the availability view and the sweep;
  - releases that do not check the reservation id;
  - no deadline re-check in the gateway confirm;
  - the manual cart loop stops without releasing earlier holds.

## Model

| member | source | states |
|---|---|---|
| Common.Filter | routes/cart.js:151-155 | `Array.prototype.filter` never lengthens its input |
| Common.FilterMembers | routes/cart.js:151-155 | the filter keeps exactly the elements that satisfy the predicate |
| Common.FilterAppend | routes/cart.js:151-155 | the filter distributes over concatenation, so the kept elements stay in order |
| Common.FilterSingle | routes/cart.js:151-155 | a single element is kept exactly when it satisfies the predicate |
| Common.IndexWhere | models/Product.js:127-137 | the first position satisfying a predicate, or none exactly when no position satisfies it (how `findOne` picks a document) |
| Common.TrimSpec | routes/cart.js:98-111 | `trim` removes exactly the leading and trailing white space and keeps the inner text |
| Common.TrimIdempotent | routes/cart.js:98-111 | trimming a trimmed string changes nothing |
| Common.TrimEmptyIffBlank | routes/cart.js:33-41 | a string trims to empty exactly when it is all white space |
| Common.LowerObjectIdHex | routes/products.js:124-134 | lower-casing a 24-hex id keeps it a 24-hex id |
| Common.CeilDiv | routes/admin-payments.js:34-40 | for a positive divisor, `r` is the least integer with `a <= r*b` |
| Products.KeyText | models/Product.js:4-8 | a well-formed key prints as a 24-hex string exactly when it is an ObjectId |
| Products.VirtualsPartitionReserved | models/Product.js:88-99 | `isReserved` and `isReservationExpired` never hold together; for a reserved record with a deadline exactly one holds; at `now == reservedUntil` the record is no longer reserved; neither holds for other states |
| Products.FindFirst | models/Product.js:127-137 | the first document matching the query, or none exactly when no document matches |
| Products.FindFirstUnique | models/Product.js:4-8 | in a store with unique `_id` and `productId`, the lookup by either key of record `i` finds `i` |
| Products.FindByIdText | routes/manual-payments.js:19-23 | only a 24-hex string finds anything by `_id` |
| Products.FindByKeyText | routes/products.js:124-134 | a 24-hex id is looked up by `_id`, anything else by `productId` |
| Products.FindByIdOrProductId | routes/checkout.js:20-25 | the `$or` lookup finds a record named by either key, and reports none only when no record has that key |
| Products.UpdateQueryTargetsRecord | routes/manual-payments.js:52-69 | the `updateQuery` built from a stored record (by `_id` if it is an ObjectId, else by `productId`) selects that record |
| Products.Apply | models/Product.js:102-124 | a `$set` of the reservation fields writes exactly the status, deadline, reservation id and (when asked) holder, and nothing else |
| Products.UpdateFirst | routes/manual-payments.js:59-69 | `updateOne` rewrites exactly the first matching record and leaves the store unchanged when nothing matches |
| Products.ReplaceKeepsValid | models/Product.js:4-8 | replacing a record with one of the same keys keeps `_id` and `productId` unique |
| Products.UpdateFirstKeepsValid | models/Product.js:4-8 | an update never breaks key uniqueness |
| Products.SweepEffect | models/Product.js:140-156 | the sweep makes a reserved record whose deadline is strictly before `now` available with all reservation fields cleared, and leaves every other record unchanged |
| Products.SweepCountIsModifiedCount | models/Product.js:140-156 | the returned count equals the number of records the sweep changed, and the number that were due |
| Products.SweepIdempotent | models/Product.js:140-156 | after a sweep nothing is due, and a second sweep at the same instant changes nothing |
| Products.SweepKeepsValid | models/Product.js:140-156 | the sweep keeps the store's keys unique |
| Products.FindAvailable | models/Product.js:127-137 | the lazy query returns exactly the records that are available, or reserved with a deadline strictly before `now` |
| Products.LazyQueryAgreesWithSweep | models/Product.js:127-156 | a record is returned by `findAvailable` exactly when the sweep at the same instant leaves it available |
| Products.DashChar | models/Product.js:165-174 | every character outside `[a-z0-9]` becomes `-`, and slug characters are kept |
| Products.CollapseDashes | models/Product.js:165-174 | collapsing runs of `-` leaves no `--`, keeps the first and last character and keeps slug characters |
| Products.TrimDashesMakesSlug | models/Product.js:165-174 | removing one leading and one trailing dash from a collapsed string of slug characters gives a slug |
| Products.Slugify | models/Product.js:165-174 | a generated slug contains only `[a-z0-9-]`, has no `--`, and neither starts nor ends with `-` |
| Products.SlugifyIdempotent | models/Product.js:165-174 | slugifying a slug gives it back |
| Products.PreSave | models/Product.js:159-174 | after the hooks `isAvailable` holds exactly when the status is available; the slug is only generated when the name changed and the slug was empty; nothing else changes |
| Products.PreSaveIdempotent | models/Product.js:159-174 | saving again without renaming changes nothing |
| Products.ProductCollection.UpdateOne | routes/manual-payments.js:59-69 | the store becomes `UpdateFirst` of the old store, and the reply says whether anything matched |
| Products.ProductCollection.CleanupExpiredReservations | models/Product.js:140-156 | the store becomes the sweep of the old store with the holder cleared, and the count is the number of records changed |
| Products.ProductCollection.ReleaseLapsed | routes/payments.js:335-351 | the same sweep with the holder kept, counting the records changed |
| Products.ProductCollection.Restore | routes/checkout.js:142-145 | an aborted transaction leaves the store as it was read |
| Products.ProductCollection.Store | models/Product.js:159-174 | a saved document replaces the stored record with its `_id` and nothing else |
| Products.StoredAt | models/Product.js:4-8 | a document loaded from position `i` is found again at `i` by its `_id` |
| Products.ProductDocument.Rename | models/Product.js:165-174 | renaming marks the name modified and changes nothing else |
| Products.ProductDocument.Save | models/Product.js:159-174 | the document becomes its pre-save image and replaces the stored record |
| Products.ProductDocument.Reserve | models/Product.js:102-107 | status reserved, deadline `now + minutes*60000` (default 15 minutes), the new reservation id, holder untouched, and the record is reserved at `now` exactly when the minutes are positive |
| Products.ProductDocument.DeadlineAhead | models/Product.js:102-107 | the deadline lies ahead of `now` exactly when the minutes are positive |
| Products.ProductDocument.ReleaseReservation | models/Product.js:110-115 | status available, deadline and reservation id cleared, holder untouched, `isAvailable` set |
| Products.ProductDocument.MarkAsSold | models/Product.js:118-124 | status sold, deadline and reservation id cleared, `isAvailable` false |
| Products.SaveFields | routes/checkout.js:79-83 | assigning fields on a loaded record and saving it writes the pre-save image of the patched record at its position |
| Payments.NewPayment | routes/manual-payments.js:150-159 | a fresh payment is pending, has no method, no proof and no admin fields |
| Payments.ProofFieldRequiredIffMethod | models/Payment.js:41-53 | the UPI transaction id is required exactly when the method is UPI, and the bank reference exactly when it is a bank transfer |
| Payments.StatusChangeKeepsValidation | models/Payment.js:61-75 | changing only the status and the admin fields of a valid payment keeps it valid |
| Payments.ReservationValidityWindow | models/Payment.js:95-98 | validity only closes as time passes; at `now == reservationExpiresAt` the reservation is already invalid; a payment that is not pending is never valid |
| Payments.Decimal | models/Payment.js:89-93 | `toString()` of a timestamp is a non-empty string of decimal digits |
| Payments.DecimalRoundTrip | models/Payment.js:89-93 | reading the decimal digits back gives the timestamp |
| Payments.GenerateOrderId | models/Payment.js:89-93 | the id begins with "GZ", followed by the timestamp digits, followed by at most six random characters |
| Payments.FindPayment | routes/manual-payments.js:409 | the first payment with this order id and user, or none exactly when there is none |
| Payments.FindByOrderId | routes/admin-payments.js:56-61 | the first payment with this order id, or none exactly when there is none |
| Payments.PaymentCollection.Insert | models/Payment.js:3-8 | a new payment is stored exactly when it passes validation and its order id is unused |
| Payments.PaymentCollection.Save | models/Payment.js:41-75 | a loaded payment is written back exactly when it passes validation |
| Orders.CustomIdItemFailsValidation | models/Order.js:14-19 | an order naming a product with a string `_id` never passes validation |
| Orders.FindOrder | routes/checkout.js:337-346 | the order with this `_id`, user and status, or none exactly when there is none |
| Orders.OrderCollection.Insert | models/Order.js:3-8 | a new order is stored exactly when it passes validation and its order id is unused |
| Orders.OrderCollection.Save | models/Order.js:41-96 | a loaded order is written back exactly when it passes validation |
| Carts.IndexOfId | models/Cart.js:137-139 | the first item with this product id, or none exactly when no item has it |
| Carts.RemoveMatching | models/Cart.js:161-171 | removes exactly the items with the id and keeps the others; the length is unchanged exactly when no item has the id |
| Carts.RemoveMatchingKeepsIdsUnique | models/Cart.js:161-171 | if the product ids were unique, they stay unique after removal |
| Carts.RemoveMatchingKeepsOrder | models/Cart.js:161-171 | removal distributes over concatenation, so the kept lines stay in their order |
| Carts.RemoveMatchingSingle | models/Cart.js:161-171 | a single line is kept exactly when its id differs from the one removed |
| Carts.KeepNonBlankIds | models/Cart.js:99-105 | after the pre-save filter every item has a non-blank trimmed id, and no item with one is dropped |
| Carts.FilterAfterValidationKeepsAll | models/Cart.js:3-41 | the filter keeps every item of a valid cart |
| Carts.SubtotalNonNegative | models/Cart.js:20-33 | with non-negative prices and positive quantities the subtotal is non-negative |
| Carts.TotalsOfValidItemsValid | models/Cart.js:120-131 | totals recomputed over valid items pass the non-negative validators |
| Carts.SummaryLines | models/Cart.js:210-217 | one summary line per item, copying its id, name, price, image and quantity, with `itemTotal` = price times quantity |
| Carts.GetSummary | models/Cart.js:203-219 | `itemsCount` is the sum of the quantities, the summary carries the cart's four totals, and its lines are `SummaryLines` of the items: each copies the item's id, name, price, image and quantity and adds `itemTotal` = price times quantity |
| Carts.SummaryAgreesWithTotals | models/Cart.js:203-219 | the item totals add up to the subtotal, and `itemsCount` is at least the number of items |
| Carts.AddedItems | models/Cart.js:134-158 | an existing id gets its quantity raised by one with nothing else changed; a new id appends one item with quantity 1, the trimmed id and `image || ''` |
| Carts.Cart.RecalculateTotals | models/Cart.js:120-131 | subtotal is the sum of price times quantity, shipping is 99 exactly when the subtotal is positive, and total is subtotal plus shipping plus tax |
| Carts.Cart.AddItem | models/Cart.js:134-158 | the items become `AddedItems` of the old items, unique ids are preserved and the totals are recomputed |
| Carts.Cart.RemoveItem | models/Cart.js:160-171 | removes exactly the matching items; returns true exactly when the length decreased; nothing changes otherwise |
| Carts.Cart.UpdateQuantity | models/Cart.js:173-190 | returns false and changes nothing for an absent id; otherwise sets the quantity, or removes the item when the quantity is below 1 |
| Carts.Cart.ClearCart | models/Cart.js:192-200 | no items, and all four totals 0 |
| Carts.Cart.Save | models/Cart.js:95-117 | the cart is stored exactly when it passes validation (every item has a non-blank id, a name, a non-negative price, a quantity of at least 1 and a `productRef` that is absent or an ObjectId, as models/Cart.js:35-38 casts it; the totals are non-negative), with the activity time set |
| Carts.EmptyCart | models/Cart.js:222-239 | a new cart is active, empty and valid |
| Carts.CartStore.FindOrCreate | models/Cart.js:222-239 | an existing cart is returned unchanged; otherwise a new empty cart is stored and returned |
| Carts.CartStore.FindAbandonedCarts | models/Cart.js:241-250 | exactly the active carts idle for more than `days` days |
| Carts.CartStore.CleanupAbandonedCarts | models/Cart.js:252-264 | deletes exactly the active empty carts idle for more than `days` days, keeps the rest unchanged, and counts the deleted ones |
| ManualPayments.UpiIdsAreBankReferences | routes/manual-payments.js:482-504 | every well-formed UPI transaction id also passes as a bank reference |
| ManualPayments.AcceptedProofIsTrimmed | routes/manual-payments.js:482-504 | an accepted proof string has no surrounding white space |
| ManualPayments.RequireProof | routes/manual-payments.js:468-480 | the presence checks pass exactly when the schema's required proof field is present |
| ManualPayments.CheckProof | routes/manual-payments.js:482-504 | a proof passes exactly when the field is present and its trimmed value matches `[A-Z0-9]{8,20}` (UPI) or `[A-Z0-9]{6,30}` (bank), case-insensitively |
| ManualPayments.AcceptedProofSaves | routes/manual-payments.js:507-510 | a payment with an accepted proof saves exactly when its method is in the enum |
| ManualPayments.NextSteps | routes/manual-payments.js:773-793 | four steps for UPI, six for a bank transfer, none otherwise |
| ManualPayments.ProductTarget | routes/manual-payments.js:436-450 | a payment names its product by ObjectId reference, else by the stored `productIdString`, else not at all |
| ManualPayments.ProductTargetMarksReferenceSold | routes/manual-payments.js:512-531 | with the intended target, a payment that references a record by `_id` marks exactly that record sold, with the hold cleared, and changes no other record |
| ManualPayments.PopulatedSoldTarget | routes/manual-payments.js:411-414 | as written, after `populate` the sold filter can only match by `productIdString`; without one it names no record |
| ManualPayments.PopulatedSoldTargetMissesReference | routes/manual-payments.js:411-414 | as written, a payment that references a reserved record by `_id` and has no `productIdString` leaves the store unchanged, so the record stays reserved; the intended target marks it sold |
| ManualPayments.UpdateTarget | routes/manual-payments.js:452-459 | updating the named product keeps the store's keys, and without a target changes nothing |
| ManualPayments.LocateProductCases | routes/manual-payments.js:16-29 | a 24-hex id is tried as `_id` first and then as `productId`; any other id only as `productId` |
| ManualPayments.Normalised | routes/manual-payments.js:50-70 | a reserved record whose deadline is at or before `now` becomes available with all reservation fields cleared; any other record is unchanged |
| ManualPayments.ClaimVerdict | routes/manual-payments.js:72-92 | a sold record is refused; a record reserved with a deadline is refused with at least one minute left; anything else may be claimed |
| ManualPayments.LapsedHoldIsClaimable | routes/manual-payments.js:50-92 | a lapsed hold never blocks a claim, whoever held it |
| ManualPayments.ClaimVerdictCases | routes/manual-payments.js:72-92 | the holder may claim again; a sold item is refused; a refused hold was left untouched by normalisation |
| ManualPayments.Claimed | routes/manual-payments.js:97-116 | a claim sets status reserved, the holder, the new order id as reservation id and the new deadline, and nothing else |
| ManualPayments.ClaimOverwritesNormalisation | routes/manual-payments.js:50-116 | normalising before claiming makes no difference to the claimed record |
| ManualPayments.ReentryIssuesNewReservation | routes/manual-payments.js:84-116 | re-entry by the holder is a fresh claim with a new reservation id and a deadline ahead of `now` |
| ManualPayments.UpdateRecord | routes/manual-payments.js:59-69 | `updateOne` through the record's own query then `findOne` returns the patched record at the same position |
| ManualPayments.ClaimProduct | routes/manual-payments.js:16-119 | the lookup, lazy normalisation and verdict; only a claim or a normalisation writes, and only to the record found |
| ManualPayments.Reserve | routes/manual-payments.js:9-193 | POST /reserve: not found, refused as sold or held, or claimed for 15 minutes; the payment it tries to record never saves, so the ledger is unchanged |
| ManualPayments.FirstNativeRecord | routes/manual-payments.js:318-320 | the first record whose `_id` is an ObjectId, or none exactly when there is none |
| ManualPayments.PaymentReference | routes/manual-payments.js:294-347 | a record with an ObjectId is referenced by it; otherwise the stored `productIdString` is the record's `productId` |
| ManualPayments.PlaceholderNamesAnotherRecord | routes/manual-payments.js:313-325 | for a record with a string `_id`, the ObjectId the handler records belongs to another record |
| ManualPayments.SubmitFormAndReserve | routes/manual-payments.js:196-398 | POST /submit-form-and-reserve: the claim of /reserve, then a pending payment; if the payment cannot be saved, the just-claimed product is released |
| ManualPayments.RecordFormPayment | routes/manual-payments.js:294-375 | the payment for the just-claimed record is inserted when it validates; otherwise the record is released to available |
| ManualPayments.UpdateTargetOf | routes/manual-payments.js:452-459 | the store becomes `UpdateTarget` of the payment's product target |
| ManualPayments.SubmitPaymentDetails | routes/manual-payments.js:401-556 | requires the caller's pending payment; an expired one is set to expired and its product released without checking the reservation id; an accepted proof verifies the payment and marks the referenced product sold (the intended target; the filter as written is under Findings) |
| ManualPayments.ObjectIdReferenceIsOwnId | routes/manual-payments.js:588-600 | in a valid store the record found again by `productId` is the record itself |
| ManualPayments.SubmitDetails | routes/manual-payments.js:559-692 | POST /submit-details: without a stored payment the one it tries to create never saves; a resolved payment is refused; a lapsed one is expired and its product released; the proof fields must be present (their format is not checked); the details are then recorded and the payment stays pending |
| ManualPayments.Units | routes/manual-payments.js:881 | `quantity \|\| 1` is never zero and keeps a non-zero quantity (the line amount at lines 881 and 914) |
| ManualPayments.LocationsAt | routes/manual-payments.js:816-828 | each cart line names what the claim lookup finds for its id |
| ManualPayments.NamedPrefix | routes/manual-payments.js:816-934 | the records named by a prefix of the lines are among those named by a longer prefix |
| ManualPayments.LinePayment | routes/manual-payments.js:911-924 | each line's payment references its product by ObjectId, costs price times `quantity \|\| 1`, and is pending under the shared deadline |
| ManualPayments.ReserveLine | routes/manual-payments.js:816-927 | one pass of the cart loop: not found, refused as sold or held, claim with payment, or failed save |
| ManualPayments.InsertLinePayment | routes/manual-payments.js:926-927 | a line's payment saves exactly when the customer details are complete, the product has an ObjectId and the order id is unused |
| ManualPayments.CartStepKeeps | routes/manual-payments.js:879-933 | a successful line keeps the loop invariant: its record joins the held ones and its payment is appended |
| ManualPayments.CartStops | routes/manual-payments.js:830-876 | a refused line ends the request with the records claimed earlier still held and their payments still recorded |
| ManualPayments.CartAdvances | routes/manual-payments.js:879-933 | a line whose claim and payment succeed extends the invariant by one line and adds its amount to the total |
| ManualPayments.CartCompletes | routes/manual-payments.js:937-948 | after the last line every named record is held for the user and every line's payment is recorded |
| ManualPayments.CartEmpty | routes/manual-payments.js:802-807 | an empty request changes nothing |
| ManualPayments.SubmitCartAndReserve | routes/manual-payments.js:795-958 | POST /submit-cart-and-reserve: the reply and both stores satisfy `CartReplied`; an earlier line's hold is not undone when a later line is refused |
| ManualPayments.ReserveLines | routes/manual-payments.js:816-934 | the loop over a non-empty request ends in `CartReplied` |
| ManualPayments.SettleOneEffect | routes/manual-payments.js:1011-1066 | one order id resolves at most one pending payment and marks at most one product sold; a missing or resolved payment is skipped |
| ManualPayments.SettleAllEffect | routes/manual-payments.js:1011-1066 | over the whole loop only pending payments are resolved, and products are only marked sold |
| ManualPayments.FindPaymentAfterResolving | routes/manual-payments.js:1012 | resolving payments does not change which payment an order id finds |
| ManualPayments.SettleOneProcessed | routes/manual-payments.js:1032-1059 | a step keeps every reported order verified with the submitted proof |
| ManualPayments.SettleAllProcessed | routes/manual-payments.js:1010-1066 | every reported order id's payment is verified with the submitted method and proof, and none is reported twice |
| ManualPayments.SettleAllAfterFailure | routes/manual-payments.js:1069-1075 | once a save has thrown, the rest of the request changes nothing |
| ManualPayments.SettleOneValidated | routes/manual-payments.js:1025-1035 | a step on a validated ledger keeps it validated |
| ManualPayments.SettleFailsOnlyForUnknownMethod | routes/manual-payments.js:1032-1035 | with the proof checks passed, a save can only fail for a method outside the enum |
| ManualPayments.SubmitCartPaymentDetails | routes/manual-payments.js:961-1077 | the empty-request and proof checks refuse without writing; otherwise the stores are `SettleAll` of the old ones |
| ManualPayments.SettleOrders | routes/manual-payments.js:1010-1060 | the loop over the order ids computes `SettleAll` |
| Checkout.AvailabilityCases | routes/checkout.js:16-52 | 404 exactly when the product is missing, 410 exactly when it is sold, 409 exactly when it is reserved with time left (at least one second); an expired reservation passes |
| Checkout.CheckoutHold | routes/checkout.js:79-83 | the checkout hold sets status reserved, the deadline and the shared reservation id, clears `isAvailable` and keeps the holder |
| Checkout.LineFor | routes/checkout.js:89-95 | an order line references the product with quantity 1 at its price |
| Checkout.ReservedOrder | routes/checkout.js:86-115 | the order is reserved with payment pending, the items, the total, the deadline and the shared reservation id |
| Checkout.BuyNowOrderSaves | routes/checkout.js:86-117 | a buy-now order for a product with a `productId` passes validation |
| Checkout.BuyNow | routes/checkout.js:55-149 | the availability verdict, then the required address fields (line 2 optional), then a 15-minute hold and a reserved order for the product's price; a failed order save leaves both stores unchanged |
| Checkout.PlaceOrder | routes/checkout.js:117-145 | a saved order commits the holds; an unsaved one restores the products read at the start |
| Checkout.CartLineStep | routes/checkout.js:183-221 | a line passes only from a state that passed, and keeps the store's keys |
| Checkout.ReserveCartLines | routes/checkout.js:183-222 | the cart loop keeps the store's keys when it passes |
| Checkout.CartLineStepKeeps | routes/checkout.js:207-221 | a passing line keeps the loop invariant: only available records are held, each line's record is held, and the total adds the line's price |
| Checkout.CartRejectsUnavailable | routes/checkout.js:191-205 | a line whose record is missing or not exactly available stops the checkout, so a lapsed reservation is also refused here |
| Checkout.StopPersists | routes/checkout.js:191-205 | once a line stops the loop, the outcome is final |
| Checkout.StopIsRefusal | routes/checkout.js:191-205 | the loop stops only with a not-found or not-available reply |
| Checkout.CheckoutCartLine | routes/checkout.js:183-221 | one pass of the loop is `CartLineStep` on the store |
| Checkout.CheckoutCartLines | routes/checkout.js:183-222 | the loop is `ReserveCartLines` on the store |
| Checkout.ClearedCart | routes/checkout.js:252-258 | the cart is emptied with all totals 0, keeping its owner and status |
| Checkout.CheckoutCart | routes/checkout.js:152-287 | missing address or an empty cart refuses without writing; a stopping line aborts with everything unchanged; otherwise every line is held under one id for Σ price and the cart is emptied only after the order is saved |
| Checkout.EmptyCartAfterOrder | routes/checkout.js:252-258 | the user's cart becomes `ClearedCart` of it and nothing else changes |
| Checkout.ReserveCartAndPlaceOrder | routes/checkout.js:183-250 | the loop, then the order save or the rollback |
| Checkout.UpdateItems | routes/checkout.js:365-377 | updating each order item keeps the store's keys |
| Checkout.UpdateItemsAt | routes/checkout.js:365-377 | after the loop a record is patched exactly when some order item names it |
| Checkout.UpdateByIdAt | routes/checkout.js:366-376 | `findByIdAndUpdate` patches exactly the record with that `_id` |
| Checkout.UpdateEachItem | routes/checkout.js:365-377 | the loop over the items computes `UpdateItems` |
| Checkout.OrderStatusChangeKeepsValidation | routes/checkout.js:357-362 | changing only status and payment fields of a valid order keeps it valid |
| Checkout.ConfirmPayment | routes/checkout.js:325-403 | requires a transaction id and a reserved order of the user with `now <= reservationExpiresAt`; then the order and every item become sold |
| Checkout.Cancel | routes/checkout.js:446-499 | requires a reserved order of the user; every item is released to available without checking its reservation, and the order is cancelled with payment status expired |
| Checkout.CancelReleasesSoldItems | routes/checkout.js:465-477 | cancelling releases even an item that is already sold |
| Gateway.FindPendingIntent | routes/payments.js:169-178 | the caller's pending payment with this id, or none exactly when there is none |
| Gateway.Ledger.Open | routes/payments.js:99-130 | the order and the payment are appended together |
| Gateway.ReserveReplyCases | routes/payments.js:20-44 | a hold is taken exactly when the product is found and available; reserved gives 409 with a non-negative number of seconds left; any other status gives 410 |
| Gateway.Reserve | routes/payments.js:12-72 | POST /reserve saves an available product as reserved for five minutes under a fresh id; every refusal leaves the store unchanged |
| Gateway.HoldLastsFiveMinutes | routes/payments.js:47-54 | a hold taken at `now` is live at `now` and lapses exactly five minutes later |
| Gateway.FindLiveHoldIsFilter | routes/payments.js:83-96 | the product is found exactly when it is reserved under the id with a deadline after `now` |
| Gateway.Create | routes/payments.js:75-158 | without a live hold the reply is 410 and nothing is written; otherwise an order and a pending payment for the product's price are created |
| Gateway.ConfirmIgnoresDeadline | routes/payments.js:180-184 | confirmation finds a hold whose deadline has passed, which `/create` would refuse |
| Gateway.Confirm | routes/payments.js:161-265 | requires the caller's pending payment and the product held under the id; approval marks the product sold, the payment completed and the order confirmed; a decline releases the product and fails the payment |
| Gateway.ConfirmEndsHold | routes/payments.js:197-256 | after confirmation the product is sold exactly when approved and available exactly when declined, with the reservation cleared |
| Gateway.FindByReservation | routes/payments.js:272-275 | the first product held under the id, or none exactly when there is none |
| Gateway.Release | routes/payments.js:268-298 | the product held under the id is released; without one the reply is 404 and nothing changes |
| Gateway.ReleaseTouchesOnlyThatHold | routes/payments.js:272-292 | a record not held under the id is never the one released |
| Gateway.CleanupExpired | routes/payments.js:333-359 | exactly the reserved records with a deadline strictly before `now` become available, and the reply counts them |
| AdminPayments.AdminGate | routes/admin-payments.js:56-67 | an open payment is a pending payment with this order id |
| AdminPayments.AdminGateCases | routes/admin-payments.js:59-67 | 404 exactly when no payment has the order id; 400 exactly when it is verified, failed or expired; otherwise the one payment with that id is pending |
| AdminPayments.OrderIdsDiffer | models/Payment.js:4-8 | two stored payments never share an order id |
| AdminPayments.UpdateReferenced | routes/admin-payments.js:81-89 | only the referenced product is updated; without a reference nothing is |
| AdminPayments.UpdateReferencedAt | routes/admin-payments.js:81-89 | a record is patched exactly when the payment references its `_id` |
| AdminPayments.VerifiedBy | routes/admin-payments.js:74-78 | status verified with `verifiedBy`, `verifiedAt` and `adminNotes` set, and nothing else changed |
| AdminPayments.RejectedWith | routes/admin-payments.js:137-139 | status failed with the notes, and nothing else changed |
| AdminPayments.Verify | routes/admin-payments.js:50-113 | an unknown order id gives 404 and a resolved payment gives 400, both without writing; otherwise the payment is verified and the referenced product marked sold |
| AdminPayments.Reject | routes/admin-payments.js:116-174 | the same gate; then the payment fails and the referenced product is released to available without checking its state |
| AdminPayments.RejectReleasesWhateverTheState | routes/admin-payments.js:142-150 | rejection makes the referenced record available even when it was sold |
| AdminPayments.Stats | routes/admin-payments.js:228-276 | the summary's total is the sum of the four status counts |
| AdminPayments.StatsTotalIsCount | routes/admin-payments.js:259-266 | the total is the number of payments |
| AdminPayments.RevenueNonNegative | routes/admin-payments.js:236-240 | verified revenue is non-negative when amounts are |
| AdminPayments.TotalPages | routes/admin-payments.js:34-38 | `totalPages = ceil(total/limit)` for a positive limit |
| AdminPayments.PageOf | routes/admin-payments.js:27-32 | a page holds at most `limit` items; a limit of 0 is MongoDB's "no limit" and returns the whole list |
| AdminPayments.EveryItemOnOnePage | routes/admin-payments.js:27-38 | every item appears on page `i/limit + 1`, at offset `i % limit`, and that page is within `totalPages`; the helper lemmas `PageOfAt` (offset `off` of page `p` is item `(p-1)*limit + off`) and `MulMonotone` support the proof |
| ProductRoutes.ListingOf | routes/products.js:16-56 | a lapsed record is reported available with deadline and holder null; `isReserved` exactly when reserved with the deadline ahead; `isAvailable` exactly when the effective status is available; `canBeReserved` exactly when also single-piece |
| ProductRoutes.ViewStep | routes/products.js:37-60 | the view is built record by record |
| ProductRoutes.QueueStep | routes/products.js:16-35 | exactly the lapsed records are queued for write-back |
| ProductRoutes.QueryFor | routes/products.js:63-90 | a queued ObjectId record is written back by `_id`, a string-id record by `productId` |
| ProductRoutes.Persist | routes/products.js:63-90 | the write-back keeps the store's keys |
| ProductRoutes.Availability | routes/products.js:6-97 | the reply is `View` of the store, and the store becomes the sweep of it |
| ProductRoutes.BuildView | routes/products.js:16-60 | the loop computes the view and the queue |
| ProductRoutes.WriteBack | routes/products.js:63-90 | the loop of updates computes `Persist` |
| ProductRoutes.PersistIsSweep | routes/products.js:63-90 | writing back the queue equals the bulk sweep |
| ProductRoutes.ViewAt | routes/products.js:43-60 | the entries under `_id` and under `productId` are the same listing of the record |
| ProductRoutes.KeyTextInjective | models/Product.js:4-8 | different well-formed keys print differently |
| ProductRoutes.ViewAgreesWithSweep | routes/products.js:16-56 | the listing of a record is the same before and after the sweep |
| ProductRoutes.ProductById | routes/products.js:113-134 | the route names `availability`, `check-availability`, `status` and `can-reserve` find nothing |
| ProductRoutes.ProductByIdCases | routes/products.js:118-134 | a 24-hex id is looked up by `_id`, anything else by `productId`; the route names find nothing |
| ProductRoutes.StatusTimeLeft | routes/products.js:181-201 | `timeLeft = reservedUntil - now` when reserved, else 0, and never negative |
| ProductRoutes.LapsedHoldViews | routes/products.js:16-35 | a lapsed hold is available in the view but reserved (though neither available nor reserved at `now`) in the status report |
| ProductRoutes.CanReserveCases | routes/products.js:226-245 | can-reserve is true exactly when available and single-piece; otherwise sold, reserved, expired and not-single-piece are checked in that order; a missing product gets the not-found reason |
| CartRoutes.CartOf | routes/cart.js:9-13 | the stored cart, or the empty cart for the user |
| CartRoutes.Saved | routes/cart.js:64 | a saved cart has totals recomputed from its items |
| CartRoutes.TotalsDetermined | models/Cart.js:120-131 | the totals are a function of the items |
| CartRoutes.OpenCart | models/Cart.js:222-239 | `findOrCreate`: the user's slot holds the stored or new cart |
| CartRoutes.AddGuard | routes/cart.js:33-41 | refuses a missing `productId` or name, an undefined price, or an id that is blank after trim |
| CartRoutes.AddedItemsValid | routes/cart.js:54-64 | adding keeps every item valid exactly when the line already exists, or the new line has a non-blank name, a non-negative price and a reference that casts to an ObjectId |
| CartRoutes.Add | routes/cart.js:27-85 | the guards, the product lookup, then the cart's `addItem` and save; a new line for a product whose `_id` is a string id fails validation (400), because `productRef` is an ObjectId field |
| CartRoutes.AddLine | routes/cart.js:54-64 | the cart saves exactly when the line already exists or the new line has a name, a non-negative price and an ObjectId reference, and its items become `AddedItems` |
| CartRoutes.Clean | routes/cart.js:105-111 | a kept item has its trimmed id, trimmed name, quantity at least 1 and `image \|\| ''` |
| CartRoutes.Sanitize | routes/cart.js:98-111 | the filter never lengthens the list |
| CartRoutes.CleanPasses | routes/cart.js:98-111 | a cleaned accepted item passes the item validators when its name and price do |
| CartRoutes.SanitizeValid | routes/cart.js:98-114 | sanitising a request of savable items gives a list of valid items |
| CartRoutes.SanitizeIdempotent | routes/cart.js:98-111 | sanitising an already sanitised list changes nothing |
| CartRoutes.CleanIdempotent | routes/cart.js:105-111 | cleaning a cleaned item changes nothing |
| CartRoutes.ReplaceItems | routes/cart.js:88-131 | a non-array body is refused; otherwise the items become the sanitised list and the cart saves exactly when that list is valid |
| CartRoutes.KeepOthers | routes/cart.js:151-155 | never lengthens the list; it is `Common.Filter` on "trimmed id differs from the trimmed path id" |
| CartRoutes.KeepOthersMembers | routes/cart.js:151-155 | keeps exactly the items whose trimmed id differs from the trimmed path id |
| CartRoutes.KeepOthersKeepsOrder | routes/cart.js:151-155 | the filter distributes over concatenation and keeps a single line exactly when its trimmed id differs, so the kept lines stay in order |
| CartRoutes.KeepOthersIsRemoveMatching | routes/cart.js:151-155 | on trimmed stored ids the route's filter is the model's `removeItem` |
| CartRoutes.KeepOthersKeepsValid | routes/cart.js:151-158 | if every item passed validation before the filter, every item still passes after it |
| CartRoutes.RemoveProduct | routes/cart.js:135-166 | without a stored cart the reply is 404; otherwise the filtered cart is saved |
| CartRoutes.QuantityGuard | routes/cart.js:184-190 | a missing quantity or one below 1 is refused |
| CartRoutes.SetQuantity | routes/cart.js:179-206 | the guard; 404 when the item is not in the cart; otherwise that item's quantity is set and the cart saved |
| CartRoutes.SetQuantityKeepsValid | routes/cart.js:192-200 | setting a quantity of at least 1 keeps every item valid |

## Left out

- Mongo machinery. Sessions and transactions become one atomic step, and an abort becomes a restore of the snapshot. `populate` is the identity on the reference, except for its effect on the sold filter of `/submit-payment-details` (see Findings). The TTL index that deletes orders (models/Order.js:102) and other index declarations are not modelled.
  - Casting errors in a lookup become misses. A cast that fails on a saved ObjectId field (the cart's `productRef`, the order's `items.product`, the payment's `productId`) is a validation failure of that save.
  - The `$or` cast of `_id` becomes a lookup by `productId` alone when the id is not 24-hex.
- Concurrency. There is no compare-and-set in the code, and the model proves only sequential guards.
- Floating-point money. Amounts are integers; `toFixed` rounding is not modelled. The 18% tax is an integer rounding of its own (`Common.Gst`), and only its non-negativity is used.
- Email (services/emailServices.js, routes/subscribe.js), authentication (routes/auth.js, models/User.js, `auth`/`adminAuth`), server plumbing (server.js), logging and message strings.
- The clock, `Math.random()` ids and the gateway's approve/decline outcome are parameters.
- The background write-back of `/availability` is modelled as completed before the next request.
- Read-only endpoints that decide nothing about the reservation state:
  - `GET /upi-details/:orderId` and `GET /order/:orderId` (routes/checkout.js);
  - `GET /:orderId` (routes/payments.js);
  - `GET /status/:orderId`, `/my-pending` and `/my-payments` (routes/manual-payments.js);
  - `GET /all` (routes/admin-payments.js);
  - `GET /`, `/by-productId/:productId` and `/admin/statistics` (routes/products.js);
  - `GET /items`, `DELETE /clear` and `GET /summary` (routes/cart.js). These are thin wrappers of the modelled `findOrCreate`, `clearCart` and `getSummary`.
- AdminPayments.TotalPages: returns no page count for a non-positive limit, where the source would divide by it. The listing order of `/pending` (sort by `createdAt`) is not modelled.
- AdminPayments.PageOf: takes the page and the limit as natural numbers from 1 and 0 up. A page of 0 or below (a negative skip, which the server refuses with an error) and a negative limit are not modelled.
- AdminPayments.Stats: only the summary counts and the verified revenue are modelled; `recentPayments` (a seven-day window on `createdAt`) and the per-method aggregation are left out, because creation times are not part of the record.
- Gateway.Create: the documents that routes/payments.js:98-126 builds fail schema validation. The order has status `pending_payment`, outside the enum at models/Order.js:43, and lacks the required `orderId`, `customerInfo`, `reservationId` and `items.productId`. The payment has method `card`, outside the enum at models/Payment.js:38, and lacks the required `customerDetails`. So as written every `/create` throws, aborts its transaction and replies 500, writing nothing. The model follows the route's intended shape (`Gateway.Ledger`) and lets `/create` succeed.
- Gateway.Confirm: since `/create` never stores a gateway payment as written, the approve and decline paths never run on the source's own data. The model runs them on payments of the intended shape.
- The `findOrCreate` fallback at routes/cart.js:9-13 never runs, because models/Cart.js:222-239 defines the static. CartRoutes.OpenCart models the model's static.
- CartRoutes: `parseFloat`/`parseInt` of request strings are not modelled. Prices and quantities arrive as integers or absent, and a non-string `productId` is not converted with `toString`.
- Validation error message lists (routes/cart.js:76, 122) and the ObjectId error catch of `/:id` (routes/products.js:140-142) are not modelled.
- Products.DashChar: only ASCII letters are lower-cased. JavaScript's Unicode `toLowerCase` maps a few other characters into ASCII or into longer strings (U+212A KELVIN SIGN becomes `k`, U+0130 becomes `i` followed by U+0307), so `Products.Slugify` turns those characters into `-` where the source keeps a letter. The slug properties hold either way.
- ManualPayments.SubmitPaymentDetails: marks the product sold through the intended target (`ManualPayments.ProductTarget`). The handler as written misses an ObjectId reference after `populate` (see Findings). A payment carrying both a dangling reference and a `productIdString` (which no handler stores) would be released by `productIdString` in the source and by the reference in the model.
- A calendar day in `findAbandonedCarts`/`cleanupAbandonedCarts` is taken as 24 hours; daylight-saving shifts of `setDate` are not modelled.

## Findings

| source | as written | input that shows it | evidently intended | confidence | as-written member | corrected member |
|---|---|---|---|---|---|---|
| routes/manual-payments.js:411-531 | `populate('productId')` replaces the reference by the product document. `toString()` of that document is not 24-hex, so the sold filter becomes `{ productId: productIdString \|\| document }`. That filter names no record when the payment stores only a reference. | a pending payment with `productId` = the `_id` of a reserved product and no `productIdString` (every payment `/submit-form-and-reserve` stores for an ObjectId product), submitted with a valid UPI id before its hold lapses | mark the referenced product sold (the comment at line 511) | medium, not executed; rests on Mongoose casting a document to its inspection string | ManualPayments.PopulatedSoldTargetMissesReference | ManualPayments.ProductTargetMarksReferenceSold |
