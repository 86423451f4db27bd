/** The storefront server's state and routes. The key-value store is held as
    four maps that the routes read and rewrite in place; every route is proved
    to do exactly what its function in module Shop says. */
module Storefront {
  import opened StoreTypes
  import opened Status
  import opened CartLines
  import opened Stock
  import opened Tracking
  import Shop

  class Store {
    var products: map<ProductId, Product>
    var carts: map<UserId, Cart>
    var orders: map<OrderId, Order>
    var tracking: map<TrackingKey, TrackingEvent>

    /** The store's contents as a value. */
    function Db(): Shop.Db
      reads this
    {
      Shop.Db(products, carts, orders, tracking)
    }

    constructor ()
      ensures Db() == Shop.Db(map[], map[], map[], map[])
      ensures Shop.Valid(Db())
    {
      products, carts, orders, tracking := map[], map[], map[], map[];
    }

    /** GET /cart. */
    method GetCart(user: User) returns (c: Cart)
      ensures c == Shop.CartOf(Db(), user.id)
    {
      c := if user.id in carts then carts[user.id] else Cart([]);
    }

    /** POST /cart: merge into the existing line or append one. */
    method AddToCart(user: User, pid: ProductId, quantity: int) returns (r: Result<Cart>)
      modifies this
      ensures (r, Db()) == Shop.AddToCart(old(Db()), user, pid, quantity)
    {
      if quantity <= 0 {
        return Err(InvalidQuantity);
      }
      if pid !in products {
        return Err(ProductNotFound);
      }
      var product := products[pid];
      if product.stock <= 0 {
        return Err(OutOfStock);
      }
      var items := if user.id in carts then carts[user.id].items else [];
      var i := IndexOf(items, pid);
      var newQuantity := if i >= 0 then items[i].quantity + quantity else quantity;
      if newQuantity > product.stock {
        return Err(InsufficientStock(product.stock));
      }
      if i >= 0 {
        items := items[i := items[i].(quantity := items[i].quantity + quantity)];
      } else {
        items := items + [CartLine(pid, quantity, product)];
      }
      carts := carts[user.id := Cart(items)];
      r := Ok(Cart(items));
    }

    /** PUT /cart/:productId: splice the line out, or overwrite its quantity. */
    method UpdateCartItem(user: User, pid: ProductId, quantity: int) returns (r: Result<Cart>)
      modifies this
      ensures (r, Db()) == Shop.UpdateCartItem(old(Db()), user, pid, quantity)
    {
      var items := if user.id in carts then carts[user.id].items else [];
      ghost var expected := SetQuantity(products, items, pid, quantity);
      var i := IndexOf(items, pid);
      if i < 0 {
        return Err(ItemNotFound);
      }
      if quantity <= 0 {
        items := items[..i] + items[i + 1..];
      } else {
        if pid in products && quantity > products[pid].stock {
          return Err(InsufficientStock(products[pid].stock));
        }
        items := items[i := items[i].(quantity := quantity)];
      }
      assert expected == Ok(items);
      carts := carts[user.id := Cart(items)];
      r := Ok(Cart(items));
    }

    /** DELETE /cart/:productId. */
    method RemoveFromCart(user: User, pid: ProductId) returns (c: Cart)
      modifies this
      ensures (c, Db()) == Shop.RemoveFromCart(old(Db()), user, pid)
    {
      var items := if user.id in carts then carts[user.id].items else [];
      c := Cart(RemoveLines(items, pid));
      carts := carts[user.id := c];
    }

    /** POST /orders: total, stock decrement line by line, order, initial
        tracking event, empty cart. */
    method PlaceOrder(user: User, orderId: OrderId, eventId: EventId,
                      paymentMethod: string, shippingAddress: string, now: Time) returns (r: Result<Order>)
      modifies this
      ensures (r, Db()) == Shop.PlaceOrder(old(Db()), user, orderId, eventId, paymentMethod, shippingAddress, now)
    {
      if user.id !in carts || |carts[user.id].items| == 0 {
        return Err(EmptyCart);
      }
      var items := carts[user.id].items;
      var total := Total(items);
      DecrementStock(items);
      var order := Order(orderId, user.id, user.email, items, total,
                         paymentMethod, shippingAddress, PENDIENTE, now, None);
      orders := orders[orderId := order];
      tracking := tracking[(orderId, eventId) := TrackingEvent(eventId, orderId, PENDIENTE, PENDING_DESCRIPTION, None, now)];
      carts := carts[user.id := Cart([])];
      r := Ok(order);
    }

    /** PUT /orders/:id/status: store the status; on the first move into
        `cancelado` from another status, give every line's quantity back. */
    method SetOrderStatus(caller: User, orderId: OrderId, status: string, now: Time) returns (r: Result<Order>)
      modifies this
      ensures (r, Db()) == Shop.SetOrderStatus(old(Db()), caller, orderId, status, now)
    {
      if !IsAdmin(caller) {
        return Err(Forbidden);
      }
      if orderId !in orders {
        return Err(OrderNotFound);
      }
      var order := orders[orderId];
      var previousStatus := order.status;
      order := order.(status := status, updatedAt := Some(now));
      if status == CANCELADO && previousStatus != CANCELADO {
        RestoreStock(order.items);
      }
      orders := orders[orderId := order];
      r := Ok(order);
    }

    /** Lines 524-530: each line's product, if still in the catalog, loses
        the line's quantity, floored at zero. */
    method DecrementStock(items: seq<CartLine>)
      modifies this
      ensures products == Decremented(old(products), items)
      ensures carts == old(carts) && orders == old(orders) && tracking == old(tracking)
    {
      var ps := products;
      ghost var ps0 := ps;
      var k := 0;
      while k < |items|
        invariant 0 <= k <= |items|
        invariant ps == Decremented(ps0, items[..k])
        modifies {}
      {
        DecrementedStep(ps0, items, k);
        var item := items[k];
        if item.productId in ps {
          var product := ps[item.productId];
          ps := ps[item.productId := product.(stock := Floor0(product.stock - item.quantity))];
        }
        k := k + 1;
      }
      assert items[..k] == items;
      products := ps;
    }

    /** Lines 648-654: each line's product, if still in the catalog, gets the
        line's quantity back. */
    method RestoreStock(items: seq<CartLine>)
      modifies this
      ensures products == Restored(old(products), items)
      ensures carts == old(carts) && orders == old(orders) && tracking == old(tracking)
    {
      var ps := products;
      ghost var ps0 := ps;
      var k := 0;
      while k < |items|
        invariant 0 <= k <= |items|
        invariant ps == Restored(ps0, items[..k])
        modifies {}
      {
        RestoredStep(ps0, items, k);
        var item := items[k];
        if item.productId in ps {
          var product := ps[item.productId];
          ps := ps[item.productId := product.(stock := product.stock + item.quantity)];
        }
        k := k + 1;
      }
      assert items[..k] == items;
      products := ps;
    }

    /** POST /orders/:id/tracking-events: append the event and overwrite the
        order's status; stock is left alone. */
    method AddTrackingEvent(caller: User, orderId: OrderId, eventId: EventId, status: string,
                            description: Option<string>, location: Option<string>, now: Time)
      returns (r: Result<TrackingEvent>)
      modifies this
      ensures (r, Db()) == Shop.AddTrackingEvent(old(Db()), caller, orderId, eventId, status, description, location, now)
    {
      if !IsAdmin(caller) {
        return Err(Forbidden);
      }
      if orderId !in orders {
        return Err(OrderNotFound);
      }
      var event := TrackingEvent(eventId, orderId, status, EventDescription(description, status), location, now);
      tracking := tracking[(orderId, eventId) := event];
      var order := orders[orderId];
      orders := orders[orderId := order.(status := status, updatedAt := Some(now))];
      r := Ok(event);
    }

    /** GET /orders/:id/tracking: the order and every event stored under
        `tracking:{orderId}:`, each exactly once, newest first. `keys` is the
        order in which the store happened to list them. */
    method GetTracking(caller: User, orderId: OrderId)
      returns (r: Result<Order>, events: seq<TrackingEvent>, ghost keys: seq<TrackingKey>)
      ensures r == Shop.ViewOrder(Db(), caller, orderId)
      ensures r.Err? ==> events == [] && keys == []
      ensures r.Ok? ==>
        && (forall k :: k in keys <==> k in Shop.OrderEventKeys(Db(), orderId))
        && (forall i, j :: 0 <= i < j < |keys| ==> keys[i] != keys[j])
        && multiset(events) == multiset(Shop.EventsAt(tracking, keys))
        && NewestFirst(events)
    {
      events, keys := [], [];
      if orderId !in orders {
        return Err(OrderNotFound), events, keys;
      }
      var order := orders[orderId];
      if order.userId != caller.id && !IsAdmin(caller) {
        return Err(Forbidden), events, keys;
      }
      var listed;
      listed, keys := ListOrderEvents(orderId);
      var a := new TrackingEvent[|listed|](i requires 0 <= i < |listed| => listed[i]);
      assert a[..] == listed;
      SortNewestFirst(a);
      events := a[..];
      r := Ok(order);
    }

    /** The prefix scan over `tracking:{orderId}:` (line 694): every event of
        the order once, in an order the store does not promise. */
    method ListOrderEvents(orderId: OrderId) returns (listed: seq<TrackingEvent>, ghost keys: seq<TrackingKey>)
      ensures forall k :: k in keys <==> k in Shop.OrderEventKeys(Db(), orderId)
      ensures forall i, j :: 0 <= i < j < |keys| ==> keys[i] != keys[j]
      ensures listed == Shop.EventsAt(tracking, keys)
    {
      var t := tracking;
      var remaining := set k | k in t.Keys && k.0 == orderId;
      listed, keys := [], [];
      while remaining != {}
        invariant forall k :: k in remaining ==> k in t && k.0 == orderId
        invariant forall k :: k in keys <==> k in t && k.0 == orderId && k !in remaining
        invariant forall i, j :: 0 <= i < j < |keys| ==> keys[i] != keys[j]
        invariant listed == Shop.EventsAt(t, keys)
        decreases remaining
      {
        var k :| k in remaining;
        Shop.EventsAtAppend(t, keys, k);
        listed := listed + [t[k]];
        keys := keys + [k];
        remaining := remaining - {k};
      }
    }

    /** POST /products. */
    method CreateProduct(caller: User, id: ProductId, name: string, description: string,
                         price: int, stock: Option<nat>, imageUrl: Option<string>, now: Time) returns (r: Result<Product>)
      modifies this
      ensures (r, Db()) == Shop.CreateProduct(old(Db()), caller, id, name, description, price, stock, imageUrl, now)
    {
      if !IsAdmin(caller) {
        return Err(Forbidden);
      }
      var product := Product(id, name, description, price, if stock.Some? then stock.value else 0, imageUrl, now, None);
      products := products[id := product];
      r := Ok(product);
    }

    /** PUT /products/:id. */
    method UpdateProduct(caller: User, id: ProductId, f: ProductFields, newImageUrl: Option<string>, now: Time)
      returns (r: Result<Product>)
      modifies this
      ensures (r, Db()) == Shop.UpdateProduct(old(Db()), caller, id, f, newImageUrl, now)
    {
      if !IsAdmin(caller) {
        return Err(Forbidden);
      }
      if id !in products {
        return Err(ProductNotFound);
      }
      var product := Shop.MergeProduct(products[id], f, newImageUrl, now);
      products := products[id := product];
      r := Ok(product);
    }

    /** DELETE /products/:id. */
    method DeleteProduct(caller: User, id: ProductId) returns (r: Result<bool>)
      modifies this
      ensures (r, Db()) == Shop.DeleteProduct(old(Db()), caller, id)
    {
      if !IsAdmin(caller) {
        return Err(Forbidden);
      }
      products := products - {id};
      r := Ok(true);
    }
  }
}
