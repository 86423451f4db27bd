/** Records kept in the storefront's key-value store, the caller of a route, and
    the outcomes a route can answer with. */
module StoreTypes {

  type ProductId = string
  type UserId = string
  type OrderId = string
  type EventId = string

  /** Instants (the source's ISO-8601 strings), as a count of ticks. */
  type Time = nat

  datatype Option<T> = None | Some(value: T)

  /** The route outcomes that are not a success, with their HTTP status. */
  datatype Error =
    | Forbidden                        // 403: not an administrator, or not the order's owner
    | ProductNotFound                  // 404 'Product not found'
    | ItemNotFound                     // 404 'Item not found in cart'
    | OrderNotFound                    // 404 'Order not found'
    | OutOfStock                       // 400 'Producto sin stock disponible'
    | InsufficientStock(available: nat) // 400 'Solo hay N unidades disponibles'
    | EmptyCart                        // 400 'Cart is empty'
    | InvalidQuantity                  // 400: a requested quantity below one
    | OrderCancelled                   // 400: a cancelled order cannot take another status

  datatype Result<T> = Ok(value: T) | Err(error: Error)

  /** `Math.max(0, x)`. */
  function Floor0(x: int): nat {
    if x > 0 then x else 0
  }

  /** The authenticated caller: its id, e-mail and the role kept in its metadata. */
  datatype User = User(id: UserId, email: string, role: string)

  /** `product:{id}`. Prices are in cents. */
  datatype Product = Product(
    id: ProductId,
    name: string,
    description: string,
    price: int,
    stock: nat,
    imageUrl: Option<string>,
    createdAt: Time,
    updatedAt: Option<Time>)

  /** One line of a cart; `product` is the snapshot taken when the line was created. */
  datatype CartLine = CartLine(productId: ProductId, quantity: nat, product: Product)

  /** `cart:{userId}`. */
  datatype Cart = Cart(items: seq<CartLine>)

  /** `order:{id}`. `items` is the cart as it was at checkout. */
  datatype Order = Order(
    id: OrderId,
    userId: UserId,
    userEmail: string,
    items: seq<CartLine>,
    total: int,
    paymentMethod: string,
    shippingAddress: string,
    status: string,
    createdAt: Time,
    updatedAt: Option<Time>)

  /** `tracking:{orderId}:{eventId}`. */
  datatype TrackingEvent = TrackingEvent(
    id: EventId,
    orderId: OrderId,
    status: string,
    description: string,
    location: Option<string>,
    timestamp: Time)

  /** The key of a tracking event: the order it belongs to and its own id. */
  type TrackingKey = (OrderId, EventId)

  /** The body of a product update; an absent field is `None`. */
  datatype ProductFields = ProductFields(
    name: Option<string>,
    description: Option<string>,
    price: Option<int>,
    stock: Option<nat>)
}
