/** Whole request sequences against the store, proved end to end. */
module Scenarios {
  import opened StoreTypes
  import opened Status
  import opened CartLines
  import opened Stock
  import opened Shop

  /** One unit of a 10.00 product: add it to the cart, check out, ship, cancel.
      Checkout leaves no stock and one `pendiente` event; shipping changes only
      the status (the status route writes no tracking event); cancelling brings
      the unit back. */
  lemma CheckoutShipCancel(p: Product, buyer: User, admin: User)
    requires p.id == "p1" && p.stock == 1 && p.price == 1000
    requires IsAdmin(admin)
    ensures
      var db0 := Db(map["p1" := p], map[], map[], map[]);
      var added := AddToCart(db0, buyer, "p1", 1);
      var placed := PlaceOrder(added.1, buyer, "o1", "e1", "tarjeta", "Calle 1", 2);
      var shipped := SetOrderStatus(placed.1, admin, "o1", ENVIADO, 3);
      var cancelled := SetOrderStatus(shipped.1, admin, "o1", CANCELADO, 4);
      && added.0 == Ok(Cart([CartLine("p1", 1, p)]))
      && placed.0.Ok? && placed.0.value.total == 1000 && placed.0.value.status == PENDIENTE
      && placed.1.products["p1"].stock == 0
      && placed.1.tracking == map[("o1", "e1") := InitialEvent("o1", "e1", 2)]
      && CartOf(placed.1, buyer.id).items == []
      && shipped.0.Ok? && shipped.1.orders["o1"].status == ENVIADO
      && shipped.1.products["p1"].stock == 0
      && shipped.1.tracking == placed.1.tracking
      && cancelled.0.Ok? && cancelled.1.orders["o1"].status == CANCELADO
      && cancelled.1.products["p1"].stock == 1
  {
    var db0 := Db(map["p1" := p], map[], map[], map[]);
    var line := CartLine("p1", 1, p);
    assert CartOf(db0, buyer.id).items == [];
    assert AddItem(db0.products, [], "p1", 1) == Ok([] + [line]);
    assert [] + [line] == [line];
    var added := AddToCart(db0, buyer, "p1", 1);
    assert added.0 == Ok(Cart([line]));
    assert [line][..0] == [];
    assert Total([line]) == 1000;
    var placed := PlaceOrder(added.1, buyer, "o1", "e1", "tarjeta", "Calle 1", 2);
    assert placed.1.products["p1"].stock == 0;
    var shipped := SetOrderStatus(placed.1, admin, "o1", ENVIADO, 3);
    assert shipped.1.orders["o1"].items == [line];
    assert Restored(shipped.1.products, [line])["p1"].stock == 1;
  }
}
