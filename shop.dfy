/** The storefront's routes as functions from the store's contents before the
    request to the answer and the contents after it. The Store class in module
    Storefront implements each of them in place. */
module Shop {
  import opened StoreTypes
  import opened Status
  import opened CartLines
  import opened Stock

  /** The four key families of the key-value store: `product:{id}`,
      `cart:{userId}`, `order:{id}` and `tracking:{orderId}:{eventId}`. */
  datatype Db = Db(
    products: map<ProductId, Product>,
    carts: map<UserId, Cart>,
    orders: map<OrderId, Order>,
    tracking: map<TrackingKey, TrackingEvent>)

  /** What every route keeps true of the store: records sit under their own
      key, carts and orders hold at most one line per product and at least one
      unit per line, and every tracking event belongs to a stored order. */
  ghost predicate Valid(db: Db) {
    && (forall id :: id in db.products ==> db.products[id].id == id)
    && (forall u :: u in db.carts ==> WellFormed(db.carts[u].items))
    && (forall o :: o in db.orders ==> db.orders[o].id == o && WellFormed(db.orders[o].items))
    && (forall k :: k in db.tracking ==> db.tracking[k].orderId == k.0 && db.tracking[k].id == k.1 && k.0 in db.orders)
  }

  // ---------------------------------------------------------------- carts

  /** GET /cart (line 388): the stored cart, or an empty one when the user has none yet. */
  function CartOf(db: Db, uid: UserId): (c: Cart)
    ensures uid in db.carts ==> c == db.carts[uid]
    ensures uid !in db.carts ==> c.items == []
  {
    if uid in db.carts then db.carts[uid] else Cart([])
  }

  /** POST /cart (lines 396-443): AddItem on the caller's cart, which is written
      back only when the add succeeds. */
  function AddToCart(db: Db, user: User, pid: ProductId, quantity: int): (out: (Result<Cart>, Db))
    ensures out.0.Err? <==> AddItem(db.products, CartOf(db, user.id).items, pid, quantity).Err?
    ensures out.0.Err? ==> out.1 == db && out.0 == Err(AddItem(db.products, CartOf(db, user.id).items, pid, quantity).error)
    ensures out.0.Ok? ==>
      && out.0 == Ok(Cart(AddItem(db.products, CartOf(db, user.id).items, pid, quantity).value))
      && out.1 == db.(carts := db.carts[user.id := out.0.value])
  {
    var r := AddItem(db.products, CartOf(db, user.id).items, pid, quantity);
    if r.Err? then (Err(r.error), db)
    else (Ok(Cart(r.value)), db.(carts := db.carts[user.id := Cart(r.value)]))
  }

  /** PUT /cart/:productId (lines 445-479): SetQuantity on the caller's cart,
      written back only when it succeeds. */
  function UpdateCartItem(db: Db, user: User, pid: ProductId, quantity: int): (out: (Result<Cart>, Db))
    ensures out.0.Err? <==> SetQuantity(db.products, CartOf(db, user.id).items, pid, quantity).Err?
    ensures out.0.Err? ==> out.1 == db && out.0 == Err(SetQuantity(db.products, CartOf(db, user.id).items, pid, quantity).error)
    ensures out.0.Ok? ==>
      && out.0 == Ok(Cart(SetQuantity(db.products, CartOf(db, user.id).items, pid, quantity).value))
      && out.1 == db.(carts := db.carts[user.id := out.0.value])
  {
    var r := SetQuantity(db.products, CartOf(db, user.id).items, pid, quantity);
    if r.Err? then (Err(r.error), db)
    else (Ok(Cart(r.value)), db.(carts := db.carts[user.id := Cart(r.value)]))
  }

  /** DELETE /cart/:productId (lines 481-499): drop every line for `pid`; the
      cart is written back even when nothing was removed. */
  function RemoveFromCart(db: Db, user: User, pid: ProductId): (out: (Cart, Db))
    ensures !HasLine(out.0.items, pid)
    ensures forall l :: l in out.0.items <==> l in CartOf(db, user.id).items && l.productId != pid
    ensures out.1 == db.(carts := db.carts[user.id := out.0])
  {
    var c := Cart(RemoveLines(CartOf(db, user.id).items, pid));
    (c, db.(carts := db.carts[user.id := c]))
  }

  /** Removing the same product twice leaves the cart as removing it once. */
  lemma RemoveFromCartIdempotent(db: Db, user: User, pid: ProductId)
    ensures var once := RemoveFromCart(db, user, pid);
      RemoveFromCart(once.1, user, pid) == once
  {
    var once := RemoveFromCart(db, user, pid);
    RemoveLinesIdempotent(CartOf(db, user.id).items, pid);
    assert CartOf(once.1, user.id) == once.0;
    assert once.1.carts[user.id := once.0] == once.1.carts;
  }

  // --------------------------------------------------------------- orders

  /** The initial tracking event written at checkout (lines 549-556). Its
      fixed text is the description table's entry for `pendiente`, so it reads
      as an event the tracking route would write with no description. */
  function InitialEvent(orderId: OrderId, eventId: EventId, now: Time): (e: TrackingEvent)
    ensures e.id == eventId && e.orderId == orderId && e.timestamp == now && e.location == None
    ensures e.status == PENDIENTE && e.description == StatusDescription(e.status)
  {
    TrackingEvent(eventId, orderId, PENDIENTE, PENDING_DESCRIPTION, None, now)
  }

  /** POST /orders (lines 504-577): turn the caller's cart into an order. */
  function PlaceOrder(db: Db, user: User, orderId: OrderId, eventId: EventId,
                      paymentMethod: string, shippingAddress: string, now: Time): (out: (Result<Order>, Db))
    ensures out.0.Err? <==> CartOf(db, user.id).items == []
    ensures out.0.Err? ==> out.0.error == EmptyCart && out.1 == db
    ensures out.0.Ok? ==>
      var o := out.0.value;
      var items := CartOf(db, user.id).items;
      && o.id == orderId && o.userId == user.id && o.userEmail == user.email
      && o.items == items && o.total == Total(items)
      && o.status == PENDIENTE && o.createdAt == now && o.updatedAt == None
      && o.paymentMethod == paymentMethod && o.shippingAddress == shippingAddress
      && out.1.products == Decremented(db.products, items)
      && out.1.carts == db.carts[user.id := Cart([])]
      && out.1.orders == db.orders[orderId := o]
      && out.1.tracking == db.tracking[(orderId, eventId) := InitialEvent(orderId, eventId, now)]
  {
    var items := CartOf(db, user.id).items;
    if items == [] then (Err(EmptyCart), db)
    else
      var order := Order(orderId, user.id, user.email, items, Total(items),
                         paymentMethod, shippingAddress, PENDIENTE, now, None);
      (Ok(order), Db(Decremented(db.products, items),
                     db.carts[user.id := Cart([])],
                     db.orders[orderId := order],
                     db.tracking[(orderId, eventId) := InitialEvent(orderId, eventId, now)]))
  }

  /** The stock side of a checkout on a valid store: every product in the cart
      drops to max(0, stock - quantity), every other product is untouched, and
      no product disappears. */
  lemma PlaceOrderStock(db: Db, user: User, orderId: OrderId, eventId: EventId,
                        paymentMethod: string, shippingAddress: string, now: Time)
    requires Valid(db)
    ensures var after := PlaceOrder(db, user, orderId, eventId, paymentMethod, shippingAddress, now).1;
      var items := CartOf(db, user.id).items;
      && after.products.Keys == db.products.Keys
      && (forall k :: 0 <= k < |items| && items[k].productId in db.products ==>
            after.products[items[k].productId].stock == Floor0(db.products[items[k].productId].stock - items[k].quantity))
      && (forall pid :: pid in db.products && !HasLine(items, pid) ==> after.products[pid] == db.products[pid])
  {
    var items := CartOf(db, user.id).items;
    assert WellFormed(items);
    DecrementedEffect(db.products, items);
  }

  /** PUT /orders/:id/status (lines 627-670): an administrator sets any status.
      A move into `cancelado` from another status gives every line's quantity
      back (lines 642-655); nothing else touches stock, a move out of
      `cancelado` included. No tracking event is written. */
  function SetOrderStatus(db: Db, caller: User, orderId: OrderId, status: string, now: Time): (out: (Result<Order>, Db))
    ensures out.0 == Err(Forbidden) <==> !IsAdmin(caller)
    ensures out.0 == Err(OrderNotFound) <==> IsAdmin(caller) && orderId !in db.orders
    ensures IsAdmin(caller) && orderId in db.orders ==> out.0.Ok?
    ensures out.0.Err? ==> out.1 == db
    ensures out.1.carts == db.carts && out.1.tracking == db.tracking
    ensures out.0.Ok? ==>
      var old_ := db.orders[orderId];
      && out.0.value == old_.(status := status, updatedAt := Some(now))
      && out.1.orders == db.orders[orderId := out.0.value]
      && out.1.products ==
           if status == CANCELADO && old_.status != CANCELADO then Restored(db.products, old_.items)
           else db.products
  {
    if !IsAdmin(caller) then (Err(Forbidden), db)
    else if orderId !in db.orders then (Err(OrderNotFound), db)
    else
      var o := db.orders[orderId];
      var updated := o.(status := status, updatedAt := Some(now));
      var products := if status == CANCELADO && o.status != CANCELADO then Restored(db.products, o.items)
                      else db.products;
      (Ok(updated), db.(products := products, orders := db.orders[orderId := updated]))
  }

  /** The stock side of the status route on a valid store: a move of an
      existing order into `cancelado` from another status gives each ordered
      product exactly its line's quantity back and leaves every other product
      untouched; any other status change leaves the catalog as it was. No
      product appears or disappears. */
  lemma SetOrderStatusStock(db: Db, caller: User, orderId: OrderId, status: string, now: Time)
    requires Valid(db) && IsAdmin(caller) && orderId in db.orders
    ensures var after := SetOrderStatus(db, caller, orderId, status, now).1;
      var o := db.orders[orderId];
      var items := o.items;
      && after.products.Keys == db.products.Keys
      && (status == CANCELADO && o.status != CANCELADO ==>
            && (forall k :: 0 <= k < |items| && items[k].productId in db.products ==>
                  after.products[items[k].productId].stock == db.products[items[k].productId].stock + items[k].quantity)
            && (forall pid :: pid in db.products && !HasLine(items, pid) ==> after.products[pid] == db.products[pid]))
      && (!(status == CANCELADO && o.status != CANCELADO) ==> after.products == db.products)
  {
    var items := db.orders[orderId].items;
    assert WellFormed(items);
    RestoredEffect(db.products, items);
  }

  /** An order cancelled, reopened and cancelled again gets its stock back
      twice: with no units in stock and an order line of one, the stock goes
      to 1, stays at 1, then goes to 2. */
  lemma AsWrittenReopenedOrderRestocksTwice(p: Product, o: Order, admin: User)
    requires p.stock == 0 && o.items == [CartLine(p.id, 1, p)] && o.status == PENDIENTE && IsAdmin(admin)
    ensures var db := Db(map[p.id := p], map[], map[o.id := o], map[]);
      var cancelled := SetOrderStatus(db, admin, o.id, CANCELADO, 1).1;
      var reopened := SetOrderStatus(cancelled, admin, o.id, ENVIADO, 2).1;
      var again := SetOrderStatus(reopened, admin, o.id, CANCELADO, 3).1;
      && cancelled.products[p.id].stock == 1
      && reopened.products[p.id].stock == 1
      && again.products[p.id].stock == 2
  {
    var items := o.items;
    assert items[..0] == [];
    var ps0 := map[p.id := p];
    var ps1 := Restored(ps0, items);
    var ps2 := Restored(ps1, items);
    assert Restored(ps0, items[..0]) == ps0 && Restored(ps1, items[..0]) == ps1;
    assert ps1 == RestoreOne(ps0, items[0]) && ps2 == RestoreOne(ps1, items[0]);
    assert ps1[p.id].stock == 1 && ps2[p.id].stock == 2;
    var db := Db(ps0, map[], map[o.id := o], map[]);
    var cancelled := SetOrderStatus(db, admin, o.id, CANCELADO, 1).1;
    assert cancelled.products == ps1;
    assert cancelled.orders[o.id] == o.(status := CANCELADO, updatedAt := Some(1));
    var reopened := SetOrderStatus(cancelled, admin, o.id, ENVIADO, 2).1;
    assert reopened.products == ps1;
    assert reopened.orders[o.id] == o.(status := ENVIADO, updatedAt := Some(2));
    var again := SetOrderStatus(reopened, admin, o.id, CANCELADO, 3).1;
    assert again.products == ps2;
  }

  /** Cancelling twice gives stock back once. */
  lemma CancelTwiceRestoresOnce(db: Db, admin: User, orderId: OrderId, now1: Time, now2: Time)
    requires IsAdmin(admin) && orderId in db.orders
    ensures var once := SetOrderStatus(db, admin, orderId, CANCELADO, now1).1;
      SetOrderStatus(once, admin, orderId, CANCELADO, now2).1.products == once.products
  {
  }

  /** A checkout whose lines all fit in stock, followed by the administrator
      cancelling that order, leaves the catalog exactly as it was. */
  lemma PlaceThenCancelRestoresStock(db: Db, user: User, admin: User, orderId: OrderId, eventId: EventId,
                                     paymentMethod: string, shippingAddress: string, now1: Time, now2: Time)
    requires Valid(db) && IsAdmin(admin)
    requires CartOf(db, user.id).items != []
    requires var items := CartOf(db, user.id).items;
      forall k :: 0 <= k < |items| && items[k].productId in db.products ==>
        items[k].quantity <= db.products[items[k].productId].stock
    ensures var placed := PlaceOrder(db, user, orderId, eventId, paymentMethod, shippingAddress, now1).1;
      SetOrderStatus(placed, admin, orderId, CANCELADO, now2).1.products == db.products
  {
    var items := CartOf(db, user.id).items;
    assert WellFormed(items);
    var placed := PlaceOrder(db, user, orderId, eventId, paymentMethod, shippingAddress, now1).1;
    assert placed.orders[orderId].items == items && placed.orders[orderId].status != CANCELADO;
    RestoreUndoesDecrement(db.products, items);
  }

  /** POST /orders/:id/tracking-events (lines 708-754): an administrator
      appends an event and overwrites the order's status with it. Stock is
      never touched, whatever the status. */
  function AddTrackingEvent(db: Db, caller: User, orderId: OrderId, eventId: EventId, status: string,
                            description: Option<string>, location: Option<string>, now: Time)
    : (out: (Result<TrackingEvent>, Db))
    ensures out.0 == Err(Forbidden) <==> !IsAdmin(caller)
    ensures out.0 == Err(OrderNotFound) <==> IsAdmin(caller) && orderId !in db.orders
    ensures IsAdmin(caller) && orderId in db.orders ==> out.0.Ok?
    ensures out.0.Err? ==> out.1 == db
    ensures out.1.products == db.products && out.1.carts == db.carts
    ensures out.0.Ok? ==>
      var e := out.0.value;
      && e == TrackingEvent(eventId, orderId, status, EventDescription(description, status), location, now)
      && |e.description| > 0
      && out.1.tracking == db.tracking[(orderId, eventId) := e]
      && out.1.orders == db.orders[orderId := db.orders[orderId].(status := status, updatedAt := Some(now))]
  {
    if !IsAdmin(caller) then (Err(Forbidden), db)
    else if orderId !in db.orders then (Err(OrderNotFound), db)
    else
      var e := TrackingEvent(eventId, orderId, status, EventDescription(description, status), location, now);
      var o := db.orders[orderId];
      (Ok(e), db.(tracking := db.tracking[(orderId, eventId) := e],
                  orders := db.orders[orderId := o.(status := status, updatedAt := Some(now))]))
  }

  /** A cancellation through the status route right after a cancellation
      through a tracking event gives nothing back: the event leaves stock
      alone, and the status route then sees the order already `cancelado`. */
  lemma CancelAfterTrackingCancelKeepsStock(db: Db, admin: User, orderId: OrderId, eventId: EventId,
                                           description: Option<string>, location: Option<string>, now1: Time, now2: Time)
    requires IsAdmin(admin) && orderId in db.orders
    ensures var viaEvent := AddTrackingEvent(db, admin, orderId, eventId, CANCELADO, description, location, now1).1;
      SetOrderStatus(viaEvent, admin, orderId, CANCELADO, now2).1.products == db.products
  {
  }

  // ----------------------------------------------- cancelled orders are final

  /** The status route with the correction of the finding on lines 642-655: a
      cancelled order cannot be moved to another status. Otherwise it is the
      route as written. */
  function SetOrderStatusFinal(db: Db, caller: User, orderId: OrderId, status: string, now: Time)
    : (out: (Result<Order>, Db))
    ensures out.0 == Err(OrderCancelled) <==>
      IsAdmin(caller) && orderId in db.orders && db.orders[orderId].status == CANCELADO && status != CANCELADO
    ensures out.0 == Err(OrderCancelled) ==> out.1 == db
    ensures out.0 != Err(OrderCancelled) ==> out == SetOrderStatus(db, caller, orderId, status, now)
  {
    if IsAdmin(caller) && orderId in db.orders && db.orders[orderId].status == CANCELADO && status != CANCELADO then
      (Err(OrderCancelled), db)
    else SetOrderStatus(db, caller, orderId, status, now)
  }

  /** The tracking-event route with the same correction: an event cannot
      move a cancelled order to another status. */
  function AddTrackingEventFinal(db: Db, caller: User, orderId: OrderId, eventId: EventId, status: string,
                                 description: Option<string>, location: Option<string>, now: Time)
    : (out: (Result<TrackingEvent>, Db))
    ensures out.0 == Err(OrderCancelled) <==>
      IsAdmin(caller) && orderId in db.orders && db.orders[orderId].status == CANCELADO && status != CANCELADO
    ensures out.0 == Err(OrderCancelled) ==> out.1 == db
    ensures out.0 != Err(OrderCancelled) ==>
      out == AddTrackingEvent(db, caller, orderId, eventId, status, description, location, now)
  {
    if IsAdmin(caller) && orderId in db.orders && db.orders[orderId].status == CANCELADO && status != CANCELADO then
      (Err(OrderCancelled), db)
    else AddTrackingEvent(db, caller, orderId, eventId, status, description, location, now)
  }

  /** A request that sets the status of one order, through either route. */
  datatype StatusRequest =
    | ViaStatusRoute(caller: User, status: string, now: Time)
    | ViaTrackingEvent(caller: User, eventId: EventId, status: string,
                       description: Option<string>, location: Option<string>, now: Time)

  function ApplyFinal(db: Db, orderId: OrderId, q: StatusRequest): Db {
    match q
    case ViaStatusRoute(caller, status, now) =>
      SetOrderStatusFinal(db, caller, orderId, status, now).1
    case ViaTrackingEvent(caller, eventId, status, description, location, now) =>
      AddTrackingEventFinal(db, caller, orderId, eventId, status, description, location, now).1
  }

  /** The store after the corrected routes serve `qs` in turn, all on `orderId`. */
  function RunFinal(db: Db, orderId: OrderId, qs: seq<StatusRequest>): Db
    decreases |qs|
  {
    if qs == [] then db else RunFinal(ApplyFinal(db, orderId, qs[0]), orderId, qs[1..])
  }

  /** What stays true of one order while the corrected routes serve requests on
      it: its lines are those it was placed with, and the catalog is either the
      starting one or, once the order is cancelled, the starting one with
      those lines given back. */
  ghost predicate RestockedAtMostOnce(start: map<ProductId, Product>, items: seq<CartLine>, d: Db, orderId: OrderId) {
    && orderId in d.orders
    && d.orders[orderId].items == items
    && (d.products == start || (d.orders[orderId].status == CANCELADO && d.products == Restored(start, items)))
  }

  /** One corrected request keeps RestockedAtMostOnce. */
  lemma ApplyFinalRestocksAtMostOnce(start: map<ProductId, Product>, items: seq<CartLine>, d: Db,
                                      orderId: OrderId, q: StatusRequest)
    requires RestockedAtMostOnce(start, items, d, orderId)
    ensures RestockedAtMostOnce(start, items, ApplyFinal(d, orderId, q), orderId)
  {
  }

  /** However the corrected routes move an order between statuses, its stock
      is given back at most once: the catalog ends as it started, or as it
      started with the order's lines given back. */
  lemma {:induction false} RunFinalRestocksAtMostOnce(db: Db, orderId: OrderId, qs: seq<StatusRequest>)
    requires orderId in db.orders
    ensures var items := db.orders[orderId].items;
      var e := RunFinal(db, orderId, qs);
      e.products == db.products || e.products == Restored(db.products, items)
  {
    RunFinalKeeps(db.products, db.orders[orderId].items, db, orderId, qs);
  }

  lemma {:induction false} RunFinalKeeps(start: map<ProductId, Product>, items: seq<CartLine>, d: Db,
                                         orderId: OrderId, qs: seq<StatusRequest>)
    requires RestockedAtMostOnce(start, items, d, orderId)
    ensures RestockedAtMostOnce(start, items, RunFinal(d, orderId, qs), orderId)
    decreases |qs|
  {
    if qs != [] {
      ApplyFinalRestocksAtMostOnce(start, items, d, orderId, qs[0]);
      RunFinalKeeps(start, items, ApplyFinal(d, orderId, qs[0]), orderId, qs[1..]);
    }
  }

  /** Under the corrected routes a cancelled order stays cancelled and no
      later request on it changes the catalog. */
  lemma {:induction false} RunFinalCancelledKeepsStock(db: Db, orderId: OrderId, qs: seq<StatusRequest>)
    requires orderId in db.orders && db.orders[orderId].status == CANCELADO
    ensures var e := RunFinal(db, orderId, qs);
      orderId in e.orders && e.orders[orderId].status == CANCELADO && e.products == db.products
    decreases |qs|
  {
    if qs != [] {
      var d := ApplyFinal(db, orderId, qs[0]);
      assert orderId in d.orders && d.orders[orderId].status == CANCELADO && d.products == db.products;
      RunFinalCancelledKeepsStock(d, orderId, qs[1..]);
    }
  }

  /** GET /orders/:id (lines 602-625), and the check GET /orders/:id/tracking
      makes before listing events (lines 681-691): a missing order first, then
      the owner-or-admin test. */
  function ViewOrder(db: Db, caller: User, orderId: OrderId): (r: Result<Order>)
    ensures r.Ok? <==> orderId in db.orders && CanView(caller, db.orders[orderId])
    ensures r.Ok? ==> r.value == db.orders[orderId]
    ensures r == Err(OrderNotFound) <==> orderId !in db.orders
    ensures r == Err(Forbidden) <==> orderId in db.orders && !CanView(caller, db.orders[orderId])
  {
    if orderId !in db.orders then Err(OrderNotFound)
    else if db.orders[orderId].userId != caller.id && !IsAdmin(caller) then Err(Forbidden)
    else Ok(db.orders[orderId])
  }

  /** GET /orders (lines 579-600): an administrator sees every order, anyone
      else only their own. */
  function ListOrders(db: Db, caller: User): (r: set<Order>)
    ensures forall o :: o in r <==> o in db.orders.Values && CanView(caller, o)
  {
    if IsAdmin(caller) then db.orders.Values
    else set o | o in db.orders.Values && o.userId == caller.id
  }

  /** The list route and the single-order route agree on who may see what. */
  lemma ListedIffViewable(db: Db, caller: User, orderId: OrderId)
    requires orderId in db.orders
    ensures ViewOrder(db, caller, orderId).Ok? <==> db.orders[orderId] in ListOrders(db, caller)
  {
  }

  /** The keys `tracking:{orderId}:*` that GET /orders/:id/tracking lists. */
  function OrderEventKeys(db: Db, orderId: OrderId): (ks: set<TrackingKey>)
    ensures forall k :: k in ks <==> k in db.tracking && k.0 == orderId
  {
    set k | k in db.tracking.Keys && k.0 == orderId
  }

  /** The events stored under `keys`, in that order. */
  function EventsAt(tracking: map<TrackingKey, TrackingEvent>, keys: seq<TrackingKey>): (r: seq<TrackingEvent>)
    requires forall k :: k in keys ==> k in tracking
    ensures |r| == |keys|
    ensures forall i :: 0 <= i < |keys| ==> r[i] == tracking[keys[i]]
  {
    if keys == [] then []
    else EventsAt(tracking, keys[..|keys| - 1]) + [tracking[keys[|keys| - 1]]]
  }

  /** Listing one more key lists one more event, at the end. */
  lemma EventsAtAppend(tracking: map<TrackingKey, TrackingEvent>, keys: seq<TrackingKey>, k: TrackingKey)
    requires forall key :: key in keys ==> key in tracking
    requires k in tracking
    ensures EventsAt(tracking, keys + [k]) == EventsAt(tracking, keys) + [tracking[k]]
  {
    assert (keys + [k])[..|keys|] == keys;
  }

  // ------------------------------------------------------------- products

  /** GET /products/:id (lines 282-296). */
  function GetProduct(db: Db, id: ProductId): (r: Result<Product>)
    ensures r.Ok? <==> id in db.products
    ensures r.Ok? ==> r.value == db.products[id]
    ensures r.Err? ==> r.error == ProductNotFound
  {
    if id in db.products then Ok(db.products[id]) else Err(ProductNotFound)
  }

  /** POST /products (lines 213-270): an administrator adds a product; an
      absent stock means zero. `imageUrl` is the signed URL of the uploaded
      image, if any. */
  function CreateProduct(db: Db, caller: User, id: ProductId, name: string, description: string,
                         price: int, stock: Option<nat>, imageUrl: Option<string>, now: Time): (out: (Result<Product>, Db))
    ensures out.0.Err? <==> !IsAdmin(caller)
    ensures out.0.Err? ==> out.0.error == Forbidden && out.1 == db
    ensures out.0.Ok? ==>
      && out.0.value == Product(id, name, description, price, if stock.Some? then stock.value else 0, imageUrl, now, None)
      && out.1 == db.(products := db.products[id := out.0.value])
  {
    if !IsAdmin(caller) then (Err(Forbidden), db)
    else
      var p := Product(id, name, description, price, if stock.Some? then stock.value else 0, imageUrl, now, None);
      (Ok(p), db.(products := db.products[id := p]))
  }

  /** The field merge of lines 343-351: a missing or empty name or description,
      and a missing or zero price, keep the stored value; a supplied stock is
      taken even when it is zero. The image URL changes only when a new image
      was uploaded. */
  function MergeProduct(p: Product, f: ProductFields, newImageUrl: Option<string>, now: Time): (r: Product)
    ensures r.id == p.id && r.createdAt == p.createdAt && r.updatedAt == Some(now)
    ensures r.name != p.name ==> f.name == Some(r.name) && r.name != ""
    ensures r.description != p.description ==> f.description == Some(r.description) && r.description != ""
    ensures r.price != p.price ==> f.price == Some(r.price) && r.price != 0
    ensures r.stock != p.stock ==> f.stock == Some(r.stock)
    ensures r.imageUrl != p.imageUrl ==> newImageUrl == r.imageUrl
    ensures f.name.Some? && f.name.value != "" ==> r.name == f.name.value
    ensures f.description.Some? && f.description.value != "" ==> r.description == f.description.value
    ensures f.price.Some? && f.price.value != 0 ==> r.price == f.price.value
    ensures f.stock.Some? ==> r.stock == f.stock.value
    ensures newImageUrl.Some? ==> r.imageUrl == newImageUrl
    ensures newImageUrl.None? ==> r.imageUrl == p.imageUrl
  {
    p.(name := if f.name.Some? && f.name.value != "" then f.name.value else p.name,
       description := if f.description.Some? && f.description.value != "" then f.description.value else p.description,
       price := if f.price.Some? && f.price.value != 0 then f.price.value else p.price,
       stock := if f.stock.Some? then f.stock.value else p.stock,
       imageUrl := if newImageUrl.Some? then newImageUrl else p.imageUrl,
       updatedAt := Some(now))
  }

  /** Applying the same update twice is applying it once. */
  lemma MergeProductIdempotent(p: Product, f: ProductFields, newImageUrl: Option<string>, now: Time)
    ensures MergeProduct(MergeProduct(p, f, newImageUrl, now), f, newImageUrl, now) == MergeProduct(p, f, newImageUrl, now)
  {
  }

  /** A price of zero cannot be set through an update: it reads as "absent". */
  lemma MergeProductIgnoresZeroPrice(p: Product, f: ProductFields, newImageUrl: Option<string>, now: Time)
    requires f.price == Some(0)
    ensures MergeProduct(p, f, newImageUrl, now).price == p.price
  {
  }

  /** PUT /products/:id (lines 298-360): an administrator updates an existing product. */
  function UpdateProduct(db: Db, caller: User, id: ProductId, f: ProductFields, newImageUrl: Option<string>, now: Time)
    : (out: (Result<Product>, Db))
    ensures out.0 == Err(Forbidden) <==> !IsAdmin(caller)
    ensures out.0 == Err(ProductNotFound) <==> IsAdmin(caller) && id !in db.products
    ensures IsAdmin(caller) && id in db.products ==> out.0.Ok?
    ensures out.0.Err? ==> out.1 == db
    ensures out.0.Ok? ==>
      && out.0.value == MergeProduct(db.products[id], f, newImageUrl, now)
      && out.1 == db.(products := db.products[id := out.0.value])
  {
    if !IsAdmin(caller) then (Err(Forbidden), db)
    else if id !in db.products then (Err(ProductNotFound), db)
    else
      var p := MergeProduct(db.products[id], f, newImageUrl, now);
      (Ok(p), db.(products := db.products[id := p]))
  }

  /** DELETE /products/:id (lines 362-377): an administrator removes a product;
      removing an absent one succeeds. Carts and orders keep their snapshots. */
  function DeleteProduct(db: Db, caller: User, id: ProductId): (out: (Result<bool>, Db))
    ensures out.0.Err? <==> !IsAdmin(caller)
    ensures out.0.Err? ==> out.0.error == Forbidden && out.1 == db
    ensures out.0.Ok? ==> id !in out.1.products && out.1 == db.(products := db.products - {id})
  {
    if !IsAdmin(caller) then (Err(Forbidden), db)
    else (Ok(true), db.(products := db.products - {id}))
  }

  // ------------------------------------------------------------ invariant

  /** The cart routes keep the store valid. */
  lemma CartRoutesPreserveValid(db: Db, user: User, pid: ProductId, quantity: int)
    requires Valid(db)
    ensures Valid(AddToCart(db, user, pid, quantity).1)
    ensures Valid(UpdateCartItem(db, user, pid, quantity).1)
    ensures Valid(RemoveFromCart(db, user, pid).1)
  {
    var items := CartOf(db, user.id).items;
    assert WellFormed(items);
    RemoveLinesWellFormed(items, pid);
  }

  /** Checkout keeps the store valid. */
  lemma PlaceOrderPreservesValid(db: Db, user: User, orderId: OrderId, eventId: EventId,
                                 paymentMethod: string, shippingAddress: string, now: Time)
    requires Valid(db)
    ensures Valid(PlaceOrder(db, user, orderId, eventId, paymentMethod, shippingAddress, now).1)
  {
    var items := CartOf(db, user.id).items;
    assert WellFormed(items);
    assert WellFormed([]);
  }

  /** The two status routes keep the store valid. */
  lemma StatusRoutesPreserveValid(db: Db, caller: User, orderId: OrderId, eventId: EventId, status: string,
                                  description: Option<string>, location: Option<string>, now: Time)
    requires Valid(db)
    ensures Valid(SetOrderStatus(db, caller, orderId, status, now).1)
    ensures Valid(AddTrackingEvent(db, caller, orderId, eventId, status, description, location, now).1)
  {
    SetOrderStatusPreservesValid(db, caller, orderId, status, now);
    AddTrackingEventPreservesValid(db, caller, orderId, eventId, status, description, location, now);
  }

  lemma SetOrderStatusPreservesValid(db: Db, caller: User, orderId: OrderId, status: string, now: Time)
    requires Valid(db)
    ensures Valid(SetOrderStatus(db, caller, orderId, status, now).1)
  {
    if IsAdmin(caller) && orderId in db.orders {
      var o := db.orders[orderId];
      assert WellFormed(o.items);
    }
  }

  lemma AddTrackingEventPreservesValid(db: Db, caller: User, orderId: OrderId, eventId: EventId, status: string,
                                       description: Option<string>, location: Option<string>, now: Time)
    requires Valid(db)
    ensures Valid(AddTrackingEvent(db, caller, orderId, eventId, status, description, location, now).1)
  {
    if IsAdmin(caller) && orderId in db.orders {
      var o := db.orders[orderId];
      assert WellFormed(o.items);
    }
  }

  /** The product routes keep the store valid. */
  lemma ProductRoutesPreserveValid(db: Db, caller: User, id: ProductId, name: string, description: string,
                                   price: int, stock: Option<nat>, f: ProductFields, imageUrl: Option<string>, now: Time)
    requires Valid(db)
    ensures Valid(CreateProduct(db, caller, id, name, description, price, stock, imageUrl, now).1)
    ensures Valid(UpdateProduct(db, caller, id, f, imageUrl, now).1)
    ensures Valid(DeleteProduct(db, caller, id).1)
  {
  }
}
