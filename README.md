# Storefront server: carts, checkout, order status and tracking

This project models the server side of a small storefront (catalog, per-user
cart, checkout, order status and order tracking) and proves properties of it
in Dafny. The server keeps everything in a key-value store under four key
families: `product:{id}`, `cart:{userId}`, `order:{id}` and
`tracking:{orderId}:{eventId}`. Its route handlers read those records, change
them and write them back.

Here the store is the class `Storefront.Store`. It has one map field per key
family, and each route is a method that updates those maps in place. The stock
loops of checkout and cancellation are `while` loops. The tracking read sorts
an array in place, newest first. Every route method except the tracking read
is proved equal to a function of module `Shop`: given the store's contents
(`Shop.Db`) and the request, that function returns the answer and the new
contents. The tracking read (`GetTracking`, with its key enumeration
`ListOrderEvents`) is proved against `Shop.ViewOrder`, `Shop.OrderEventKeys`
and `Shop.EventsAt`, and its result is stated as a permutation of the order's
events sorted newest first. The lemmas about the `Shop` functions are where
the store's promises are proved:

- adding to the cart merges lines or appends one and keeps one line per product;
- removing a line is idempotent;
- checkout computes the total, decrements stock floored at zero, writes one
  `pendiente` event and empties the cart;
- two cancellations in a row give stock back once, but cancel, reopen,
  cancel gives it back twice (see Findings); with the correction there, a
  cancelled order stays cancelled under both status-changing routes, and
  however they are called its stock is given back at most once;
- a status-route cancellation right after a tracking-event cancellation gives
  nothing back;
- every route keeps the store valid.

Modules:

- `StoreTypes` (types.dfy): the records (product, cart line, cart, order, tracking event, caller), `Option`, `Result` and the error outcomes.
- `Status` (status.dfy): status names, the default descriptions, and the `IsAdmin` predicate (role `administrador`) and `CanView` predicate (owner or admin).
- `CartLines` (cart_lines.dfy): the line lookup (`findIndex`), the add and set-quantity rules, the removal filter, the order total.
- `Stock` (stock.dfy): the checkout decrement and the cancellation restore, and how they compose.
- `Shop` (shop.dfy): every route as a function of the store's contents, the store invariant `Valid`, and the lemmas about sequences of routes.
- `Tracking` (tracking.dfy): the newest-first order and the in-place insertion sort.
- `Storefront` (storefront.dfy): the `Store` class.
- `Scenarios` (scenarios.dfy): add to cart, check out, ship, then cancel, proved end to end.

Inputs the server takes from its platform are parameters of each method:

- the authenticated caller, as a `User` record;
- fresh ids (`crypto.randomUUID()`);
- the current time (`new Date()`), as a natural number;
- the signed URL of an uploaded image, if there was one.

Prices are integers (cents). Stock and cart quantities are naturals.

Two facts about the routes are easy to miss:

- The status route (`PUT /orders/:id/status`) writes no tracking event. Only checkout and the tracking-event route write events. `Shop.SetOrderStatus` leaves `tracking` unchanged, and `Scenarios.CheckoutShipCancel` shows that after shipping there is still only the checkout event.
- A cart line is meant to hold at least one unit. The add route never checks this (see Findings).

## Model

| member | source | states |
|---|---|---|
| `Status.StatusDescription` | src/supabase/functions/server/index.tsx:758-767 | for ordinary status strings: the description is never empty; it is `'Estado actualizado'` exactly when the status has no entry of its own (so also for `procesando`); `pendiente` maps to the checkout event's text (status strings naming inherited object members are under Left out) |
| `Status.IsAdmin` | src/supabase/functions/server/index.tsx:216 | the caller is an administrator exactly when their role is `administrador`; the same test guards lines 301, 365, 630 and 711 |
| `Status.CanView` | src/supabase/functions/server/index.tsx:616 | an order may be seen by its owner or by an administrator; the same test guards the tracking read at line 689 |
| `Status.EventDescription` | src/supabase/functions/server/index.tsx:728 | a supplied non-empty description is kept; an absent or empty one falls back to the status default; the result is never empty |
| `CartLines.IndexOf` | src/supabase/functions/server/index.tsx:416 | -1 exactly when no line has the product id, otherwise the index of the first such line |
| `CartLines.QuantityOf` | src/supabase/functions/server/index.tsx:418-420 | 0 for a product without a line; with unique ids, the quantity of that product's line |
| `CartLines.AddItem` | src/supabase/functions/server/index.tsx:403-437 | fails exactly when the quantity is below one, the product is missing, its stock is 0, or existing + requested exceeds stock, and says which; on success the product's quantity grows by exactly the request (at most stock), every other product's quantity is unchanged, a merged line keeps its position and snapshot and other lines are untouched, a new line is appended last; one line per product and positive quantities are preserved |
| `CartLines.SetQuantity` | src/supabase/functions/server/index.tsx:452-471 | ItemNotFound exactly when the cart has no line for the product; quantity <= 0 removes one line (with unique ids: equals the removal filter); a positive quantity fails exactly when the product exists with less stock; otherwise only that line's quantity changes; a well-formed cart stays well-formed |
| `CartLines.RemoveLines` | src/supabase/functions/server/index.tsx:491 | a line is kept exactly when it was in the cart and is for another product |
| `CartLines.RemoveLinesAppend` | src/supabase/functions/server/index.tsx:491 | filtering distributes over concatenation, so kept lines keep their order |
| `CartLines.RemoveLinesAbsent` | src/supabase/functions/server/index.tsx:491 | removing a product the cart does not hold changes nothing |
| `CartLines.RemoveLinesIdempotent` | src/supabase/functions/server/index.tsx:491 | removing twice is removing once |
| `CartLines.RemoveLinesAtUnique` | src/supabase/functions/server/index.tsx:456-463 | with unique ids, the set-quantity route's splice at the found index equals the remove route's filter |
| `CartLines.RemoveLinesWellFormed` | src/supabase/functions/server/index.tsx:491 | removal keeps one line per product and positive quantities |
| `CartLines.Total` | src/supabase/functions/server/index.tsx:519-521 | the order total, a left fold of price times quantity over the lines' snapshot prices; never negative when no price is |
| `CartLines.TotalAppend` | src/supabase/functions/server/index.tsx:519-521 | the order total (left fold of price times quantity over snapshot prices) is additive over concatenation |
| `CartLines.TotalFromFront` | src/supabase/functions/server/index.tsx:519-521 | the left fold equals the sum taken from the first line |
| `CartLines.AddQuantityAsWritten` | src/supabase/functions/server/index.tsx:411-425 | the add route's guards on the raw request quantity, as written; an accepted quantity never exceeds stock |
| `CartLines.AsWrittenAcceptsNegativeQuantity` | src/supabase/functions/server/index.tsx:418-435 | as written, a request for -2 units with stock 5 is accepted and would be stored, and the checkout's max(0, stock - quantity) then gives 7; the model's cart lines hold naturals, so the rise is shown on that arithmetic, not through `Stock.Decremented` |
| `CartLines.AddItemAgreesWithAsWritten` | src/supabase/functions/server/index.tsx:411-425 | for every positive quantity the corrected add accepts and stores exactly what the route as written does |
| `Stock.Decremented` | src/supabase/functions/server/index.tsx:524-530 | the checkout loop keeps the catalog's product ids and changes only stock, never upwards |
| `Stock.Restored` | src/supabase/functions/server/index.tsx:648-654 | the cancellation loop keeps the catalog's product ids and changes only stock, never downwards |
| `Stock.DecrementedEffect` | src/supabase/functions/server/index.tsx:524-530 | with one line per product, each ordered product ends at max(0, stock - quantity), all others unchanged |
| `Stock.RestoredEffect` | src/supabase/functions/server/index.tsx:648-654 | with one line per product, each ordered product gains exactly its quantity, all others unchanged |
| `Stock.RestoreAfterDecrement` | src/supabase/functions/server/index.tsx:524-654 | checkout then cancellation leaves each ordered product at max(stock, quantity): the old stock unless the checkout clamped |
| `Stock.RestoreUndoesDecrement` | src/supabase/functions/server/index.tsx:524-654 | when no line exceeds its product's stock, cancellation restores the catalog exactly |
| `Stock.DecrementUndoesRestore` | src/supabase/functions/server/index.tsx:524-654 | with one line per product, taking an order's lines out of stock right after giving them back leaves the catalog exactly as it was |
| `Stock.ClampedCancellationOverRestores` | src/supabase/functions/server/index.tsx:527-651 | clamp on decrement and no ceiling on restore: stock 1, an order line of 3, then a cancellation leaves stock 3 |
| `Shop.CartOf` | src/supabase/functions/server/index.tsx:388 | a user's cart is the stored one, or empty when none is stored; reading never fails |
| `Shop.AddToCart` | src/supabase/functions/server/index.tsx:396-443 | fails exactly when AddItem does, and then nothing is written; on success only the caller's cart is rewritten |
| `Shop.UpdateCartItem` | src/supabase/functions/server/index.tsx:445-479 | fails exactly when SetQuantity does, and then nothing is written; on success only the caller's cart is rewritten |
| `Shop.RemoveFromCart` | src/supabase/functions/server/index.tsx:481-499 | never fails; the result has no line for the product and keeps every other line; the cart is written even when nothing was removed |
| `Shop.RemoveFromCartIdempotent` | src/supabase/functions/server/index.tsx:489-493 | removing the same product a second time changes neither the answer nor the store |
| `Shop.InitialEvent` | src/supabase/functions/server/index.tsx:549-556 | the checkout event is for the new order, at the checkout time, with no location, status `pendiente`, and the description table's text for `pendiente` |
| `Shop.PlaceOrder` | src/supabase/functions/server/index.tsx:504-577 | fails with EmptyCart, changing nothing, exactly when the cart is missing or empty; otherwise the order holds the cart's lines, their snapshot total and status `pendiente`; stock is decremented line by line; one `pendiente` event is written under the new order; the cart is emptied |
| `Shop.PlaceOrderStock` | src/supabase/functions/server/index.tsx:523-530 | on a valid store, checkout leaves each ordered product at max(0, stock - quantity), every other product untouched, no product removed |
| `Shop.SetOrderStatus` | src/supabase/functions/server/index.tsx:627-670 | Forbidden exactly for non-admins, OrderNotFound exactly for a missing order, both changing nothing; an admin on an existing order always succeeds, and the new status and time are stored; stock is restored on a move into `cancelado` from another status and left alone otherwise, a move out of `cancelado` included; carts and tracking never change |
| `Shop.SetOrderStatusStock` | src/supabase/functions/server/index.tsx:642-655 | on a valid store, an admin moving an existing order into `cancelado` from another status gives each ordered product exactly its line's quantity back and leaves every other product untouched; any other status change leaves the catalog as it was; no product appears or disappears |
| `Shop.AsWrittenReopenedOrderRestocksTwice` | src/supabase/functions/server/index.tsx:642-655 | an order line of one with no units in stock, cancelled, moved to `enviado` and cancelled again, leaves stock 1, then 1, then 2 |
| `Shop.CancelTwiceRestoresOnce` | src/supabase/functions/server/index.tsx:642-655 | a second cancellation leaves stock as the first left it |
| `Shop.PlaceThenCancelRestoresStock` | src/supabase/functions/server/index.tsx:504-657 | checking out a cart that fits in stock, then cancelling that order, leaves the catalog as it was before checkout |
| `Shop.AddTrackingEvent` | src/supabase/functions/server/index.tsx:708-754 | Forbidden exactly for non-admins, OrderNotFound exactly for a missing order, both changing nothing; an admin on an existing order always succeeds, and one event with a non-empty description is stored under the order and the order's status is overwritten; stock and carts never change |
| `Shop.SetOrderStatusFinal` | src/supabase/functions/server/index.tsx:642-655 | as corrected: OrderCancelled, changing nothing, exactly when an admin asks to move an existing cancelled order to another status; otherwise the route as written |
| `Shop.AddTrackingEventFinal` | src/supabase/functions/server/index.tsx:733-739 | as corrected: OrderCancelled, changing nothing, exactly when an admin posts an event with another status for an existing cancelled order; otherwise the route as written |
| `Shop.ApplyFinalRestocksAtMostOnce` | src/supabase/functions/server/index.tsx:642-655 | as corrected, one request through either status-changing route keeps the order's lines, and keeps the catalog either as it started or, with the order cancelled, as it started with those lines given back |
| `Shop.RunFinalRestocksAtMostOnce` | src/supabase/functions/server/index.tsx:642-655 | as corrected, after any sequence of requests on one order through either status-changing route, the catalog is the starting one or the starting one with the order's lines given back once |
| `Shop.RunFinalCancelledKeepsStock` | src/supabase/functions/server/index.tsx:642-655 | as corrected, once an order is cancelled it stays cancelled and no later request on it through either route changes the catalog |
| `Shop.CancelAfterTrackingCancelKeepsStock` | src/supabase/functions/server/index.tsx:733-739 | a tracking-event cancellation followed directly by a status-route cancellation leaves stock as it was: the event does not touch stock and the status route then sees the order already `cancelado` |
| `Shop.ViewOrder` | src/supabase/functions/server/index.tsx:602-625 | OrderNotFound exactly when the order is missing, Forbidden exactly when it exists and the caller is neither its owner nor an admin, otherwise the stored order |
| `Shop.ListOrders` | src/supabase/functions/server/index.tsx:579-600 | lists exactly the stored orders the caller may view: all for an admin, their own for anyone else |
| `Shop.ListedIffViewable` | src/supabase/functions/server/index.tsx:586-618 | an order appears in the caller's list exactly when the single-order route would show it |
| `Shop.OrderEventKeys` | src/supabase/functions/server/index.tsx:694 | the listed keys are exactly the stored tracking keys of that order |
| `Shop.GetProduct` | src/supabase/functions/server/index.tsx:282-296 | the stored product, or ProductNotFound exactly when it is missing |
| `Shop.CreateProduct` | src/supabase/functions/server/index.tsx:213-270 | Forbidden, changing nothing, exactly for non-admins; otherwise the product is stored under its id, with stock 0 when none is given |
| `Shop.MergeProduct` | src/supabase/functions/server/index.tsx:343-351 | id and creation time are kept and the update time set; a field changes only to a supplied value that is truthy (non-empty name or description, non-zero price, any stock); a supplied truthy value is always taken; the image changes only to a new upload, and without one the stored image is kept |
| `Shop.MergeProductIdempotent` | src/supabase/functions/server/index.tsx:343-351 | applying the same update twice equals applying it once |
| `Shop.MergeProductIgnoresZeroPrice` | src/supabase/functions/server/index.tsx:347 | a price of 0 in an update keeps the old price |
| `Shop.UpdateProduct` | src/supabase/functions/server/index.tsx:298-360 | Forbidden exactly for non-admins, ProductNotFound exactly for a missing product, both changing nothing; an admin on an existing product always succeeds, and the merged product replaces the stored one |
| `Shop.DeleteProduct` | src/supabase/functions/server/index.tsx:362-377 | Forbidden, changing nothing, exactly for non-admins; otherwise the product is gone, whether or not it existed |
| `Shop.CartRoutesPreserveValid` | src/supabase/functions/server/index.tsx:396-499 | add, set-quantity and remove keep every cart at one line per product with positive quantities |
| `Shop.PlaceOrderPreservesValid` | src/supabase/functions/server/index.tsx:504-561 | checkout keeps the store valid: the order sits under its id with well-formed lines, and its event under an existing order |
| `Shop.StatusRoutesPreserveValid` | src/supabase/functions/server/index.tsx:627-739 | the status and tracking-event routes keep the store valid |
| `Shop.ProductRoutesPreserveValid` | src/supabase/functions/server/index.tsx:213-377 | create, update and delete keep every product under its own id |
| `Tracking.SortNewestFirst` | src/supabase/functions/server/index.tsx:697-699 | sorts the array in place into a permutation of itself whose timestamps never increase |
| `Storefront.Store.GetCart` | src/supabase/functions/server/index.tsx:388 | returns the cart `Shop.CartOf` describes |
| `Storefront.Store.AddToCart` | src/supabase/functions/server/index.tsx:403-438 | answer and new contents are those of `Shop.AddToCart` |
| `Storefront.Store.UpdateCartItem` | src/supabase/functions/server/index.tsx:452-474 | answer and new contents are those of `Shop.UpdateCartItem` |
| `Storefront.Store.RemoveFromCart` | src/supabase/functions/server/index.tsx:488-494 | answer and new contents are those of `Shop.RemoveFromCart` |
| `Storefront.Store.PlaceOrder` | src/supabase/functions/server/index.tsx:511-572 | answer and new contents are those of `Shop.PlaceOrder` |
| `Storefront.Store.DecrementStock` | src/supabase/functions/server/index.tsx:524-530 | the loop leaves the catalog equal to `Stock.Decremented` of the old one and nothing else changed |
| `Storefront.Store.SetOrderStatus` | src/supabase/functions/server/index.tsx:634-665 | answer and new contents are those of `Shop.SetOrderStatus` |
| `Storefront.Store.RestoreStock` | src/supabase/functions/server/index.tsx:648-654 | the loop leaves the catalog equal to `Stock.Restored` of the old one and nothing else changed |
| `Storefront.Store.AddTrackingEvent` | src/supabase/functions/server/index.tsx:715-749 | answer and new contents are those of `Shop.AddTrackingEvent` |
| `Storefront.Store.ListOrderEvents` | src/supabase/functions/server/index.tsx:694 | lists every stored event of the order exactly once, under keys that are exactly the order's tracking keys |
| `Storefront.Store.GetTracking` | src/supabase/functions/server/index.tsx:681-701 | the answer is `Shop.ViewOrder`'s; on success the events are every event of that order exactly once, in some listing order of its keys, sorted newest first |
| `Storefront.Store.CreateProduct` | src/supabase/functions/server/index.tsx:220-265 | answer and new contents are those of `Shop.CreateProduct` |
| `Storefront.Store.UpdateProduct` | src/supabase/functions/server/index.tsx:305-355 | answer and new contents are those of `Shop.UpdateProduct` |
| `Storefront.Store.DeleteProduct` | src/supabase/functions/server/index.tsx:369-372 | answer and new contents are those of `Shop.DeleteProduct` |
| `Scenarios.CheckoutShipCancel` | src/supabase/functions/server/index.tsx:504-670 | one unit at 10.00: checkout gives total 1000, stock 0, one `pendiente` event and an empty cart; shipping changes only the status; cancelling brings stock back to 1 |

## Left out

- Unauthenticated requests (the 401 answers) and the token lookup of lines 154-164: every route is given an authenticated caller.
- Signup and the current-user route (lines 168-209): they only call the authentication provider.
- Image handling (lines 142-151, 226-251, 316-341): decoding the data URL, the upload, its failure answer and URL signing are storage calls. A product route receives the resulting URL, or none.
- E-mail sending (lines 11-127 and the `sendEmail` calls): its failures are caught and logged and never change an answer or the store.
- The secondary key `user:{userId}:order:{orderId}` written at line 545: no route ever reads it.
- GET /products (lines 272-280): a plain listing of every stored product, with no logic of its own.
- Failures of the key-value store itself (the 500 answers), and the partial writes they can leave: the model's store never fails.
- Concurrency: each route runs alone. The race between two checkouts that read the same stock is not represented.
- Number parsing: prices are integer cents and stock a natural. `parseFloat`/`parseInt` and a non-numeric or NaN result are not modelled. Stock is always present, so the `stock !== undefined` guards always hold.
- Timestamps are naturals. The tracking sort compares them directly, without parsing date strings.
- Request bodies are typed: `paymentMethod` and `shippingAddress` are opaque strings, and an absent `status` in a status or tracking request is not modelled.
- Storefront.Store.GetTracking: events with equal timestamps may come out in any order. The listing order of the store is unspecified, so the order among ties is left open.
- Tracking keys are pairs (order id, event id), so a prefix scan of one order can never match another order's keys.
- Status.StatusDescription: status strings that name members every JavaScript object inherits (`toString`, `constructor`, `__proto__` and the like) are not modelled. For those the source's table lookup finds the inherited member, which is truthy, so the route never falls back to `'Estado actualizado'` and the event stores a description that is not a string. The model gives `'Estado actualizado'`.
- Shop.RunFinalRestocksAtMostOnce: only requests on the one order, through the two status-changing routes, are interleaved. Checkouts, cart and product routes, and requests on other orders between them are not, so the lemma speaks of that order's lines, not of the whole catalog's history.
- The corrected status routes (`Shop.SetOrderStatusFinal`, `Shop.AddTrackingEventFinal`) are functions only. The `Storefront.Store` methods implement both routes as written.
- Storefront.Store.AddToCart: differs from the route as written on purpose. A quantity below one is refused with InvalidQuantity, where the route accepts it (see Findings).

## Findings

| source | as written | input that shows it | evidently intended | confidence | as-written member | corrected member |
|---|---|---|---|---|---|---|
| src/supabase/functions/server/index.tsx:418-435 | the add route never checks that the requested quantity is positive; both stock guards pass for a negative quantity, and the line stores it | POST /cart with quantity -2 for a product with stock 5 and no line in the cart: a line of -2 units is stored, and checkout then sets stock to max(0, 5 + 2) = 7 | a quantity below one is refused, so every cart line holds at least one unit | medium; not executed | `CartLines.AddQuantityAsWritten`, `CartLines.AsWrittenAcceptsNegativeQuantity` | `CartLines.AddItem` (and `CartLines.AddItemAgreesWithAsWritten`, `Shop.CartRoutesPreserveValid`) |
| src/supabase/functions/server/index.tsx:642-655 | the status route gives an order's stock back on every move into `cancelado` from another status; neither it nor the tracking-event route takes the stock back when an order leaves `cancelado`, and neither refuses to move a cancelled order | an order line of one unit, no units in stock: `cancelado` sets stock to 1, `enviado` leaves 1, `cancelado` again sets 2 | an order gives its stock back at most once; the correction here makes a cancelled order final under both routes (taking the stock again on a reopen is not sound next to the tracking-event route, which never touches stock) | low; not executed | `Shop.SetOrderStatus`, `Shop.AsWrittenReopenedOrderRestocksTwice` | `Shop.SetOrderStatusFinal`, `Shop.AddTrackingEventFinal` (and `Shop.RunFinalRestocksAtMostOnce`, `Shop.RunFinalCancelledKeepsStock`) |
