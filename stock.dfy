/** Stock accounting over the catalog: the checkout's decrement and the
    cancellation's restore, one order line at a time. */
module Stock {
  import opened StoreTypes
  import opened CartLines

  /** One pass of the checkout loop (lines 524-530): a product still in the
      catalog loses the line's quantity, floored at zero; a missing one is skipped. */
  function DecrementOne(ps: map<ProductId, Product>, line: CartLine): map<ProductId, Product> {
    if line.productId in ps then
      var p := ps[line.productId];
      ps[line.productId := p.(stock := Floor0(p.stock - line.quantity))]
    else ps
  }

  /** The catalog after the checkout loop has run over `items` in order. */
  function Decremented(ps: map<ProductId, Product>, items: seq<CartLine>): (r: map<ProductId, Product>)
    ensures r.Keys == ps.Keys
    ensures forall pid :: pid in ps ==> r[pid] == ps[pid].(stock := r[pid].stock) && r[pid].stock <= ps[pid].stock
  {
    if items == [] then ps
    else DecrementOne(Decremented(ps, items[..|items| - 1]), items[|items| - 1])
  }

  /** The checkout loop's next pass extends the fold by one line. */
  lemma DecrementedStep(ps: map<ProductId, Product>, items: seq<CartLine>, k: nat)
    requires k < |items|
    ensures Decremented(ps, items[..k + 1]) == DecrementOne(Decremented(ps, items[..k]), items[k])
  {
    assert items[..k + 1][..k] == items[..k];
  }

  /** One pass of the cancellation loop (lines 648-654): a product still in the
      catalog gets the line's quantity back, with no ceiling; a missing one is skipped. */
  function RestoreOne(ps: map<ProductId, Product>, line: CartLine): map<ProductId, Product> {
    if line.productId in ps then
      var p := ps[line.productId];
      ps[line.productId := p.(stock := p.stock + line.quantity)]
    else ps
  }

  /** The catalog after the cancellation loop has run over `items` in order. */
  function Restored(ps: map<ProductId, Product>, items: seq<CartLine>): (r: map<ProductId, Product>)
    ensures r.Keys == ps.Keys
    ensures forall pid :: pid in ps ==> r[pid] == ps[pid].(stock := r[pid].stock) && r[pid].stock >= ps[pid].stock
  {
    if items == [] then ps
    else RestoreOne(Restored(ps, items[..|items| - 1]), items[|items| - 1])
  }

  /** The cancellation loop's next pass extends the fold by one line. */
  lemma RestoredStep(ps: map<ProductId, Product>, items: seq<CartLine>, k: nat)
    requires k < |items|
    ensures Restored(ps, items[..k + 1]) == RestoreOne(Restored(ps, items[..k]), items[k])
  {
    assert items[..k + 1][..k] == items[..k];
  }

  /** In a cart with one line per product, the last line is for a product
      the earlier lines do not hold, and every other product held is held by
      an earlier line. */
  lemma LastLineIsNew(items: seq<CartLine>)
    requires UniqueIds(items) && items != []
    ensures var init := items[..|items| - 1];
      && UniqueIds(init)
      && !HasLine(init, items[|items| - 1].productId)
      && forall pid :: pid != items[|items| - 1].productId && !HasLine(init, pid) ==> !HasLine(items, pid)
  {
    var init := items[..|items| - 1];
    assert forall k :: 0 <= k < |init| ==> init[k] == items[k];
  }

  /** With one line per product, the checkout leaves each ordered product at
      max(0, stock - quantity) and every other product as it was. */
  lemma {:induction false} DecrementedEffect(ps: map<ProductId, Product>, items: seq<CartLine>)
    requires UniqueIds(items)
    ensures forall k :: 0 <= k < |items| && items[k].productId in ps ==>
      Decremented(ps, items)[items[k].productId].stock == Floor0(ps[items[k].productId].stock - items[k].quantity)
    ensures forall pid :: pid in ps && !HasLine(items, pid) ==> Decremented(ps, items)[pid] == ps[pid]
  {
    if items != [] {
      var init, last := items[..|items| - 1], items[|items| - 1];
      LastLineIsNew(items);
      DecrementedEffect(ps, init);
      var mid := Decremented(ps, init);
      assert Decremented(ps, items) == DecrementOne(mid, last);
      forall k | 0 <= k < |items| && items[k].productId in ps
        ensures Decremented(ps, items)[items[k].productId].stock == Floor0(ps[items[k].productId].stock - items[k].quantity)
      {
        var pid := items[k].productId;
        if k < |init| {
          assert init[k] == items[k] && pid != last.productId;
          assert Decremented(ps, items)[pid] == mid[pid];
        } else {
          assert mid[pid] == ps[pid];
        }
      }
    }
  }

  /** With one line per product, the cancellation gives each ordered product
      its quantity back and leaves every other product as it was. */
  lemma {:induction false} RestoredEffect(ps: map<ProductId, Product>, items: seq<CartLine>)
    requires UniqueIds(items)
    ensures forall k :: 0 <= k < |items| && items[k].productId in ps ==>
      Restored(ps, items)[items[k].productId].stock == ps[items[k].productId].stock + items[k].quantity
    ensures forall pid :: pid in ps && !HasLine(items, pid) ==> Restored(ps, items)[pid] == ps[pid]
  {
    if items != [] {
      var init, last := items[..|items| - 1], items[|items| - 1];
      LastLineIsNew(items);
      RestoredEffect(ps, init);
      var mid := Restored(ps, init);
      assert Restored(ps, items) == RestoreOne(mid, last);
      forall k | 0 <= k < |items| && items[k].productId in ps
        ensures Restored(ps, items)[items[k].productId].stock == ps[items[k].productId].stock + items[k].quantity
      {
        var pid := items[k].productId;
        if k < |init| {
          assert init[k] == items[k] && pid != last.productId;
          assert Restored(ps, items)[pid] == mid[pid];
        } else {
          assert mid[pid] == ps[pid];
        }
      }
    }
  }

  /** Checkout followed by cancellation leaves each ordered product at
      max(stock, quantity): exactly the old stock unless the checkout had to
      clamp at zero, in which case the cancellation gives back more than was
      taken. */
  lemma RestoreAfterDecrement(ps: map<ProductId, Product>, items: seq<CartLine>)
    requires UniqueIds(items)
    ensures Restored(Decremented(ps, items), items).Keys == ps.Keys
    ensures forall k :: 0 <= k < |items| && items[k].productId in ps ==>
      var p := ps[items[k].productId];
      Restored(Decremented(ps, items), items)[items[k].productId]
        == p.(stock := if p.stock >= items[k].quantity then p.stock else items[k].quantity)
    ensures forall pid :: pid in ps && !HasLine(items, pid) ==> Restored(Decremented(ps, items), items)[pid] == ps[pid]
  {
    DecrementedEffect(ps, items);
    RestoredEffect(Decremented(ps, items), items);
  }

  /** When no line asks for more than its product holds, cancellation undoes
      the checkout exactly. */
  lemma RestoreUndoesDecrement(ps: map<ProductId, Product>, items: seq<CartLine>)
    requires UniqueIds(items)
    requires forall k :: 0 <= k < |items| && items[k].productId in ps ==> items[k].quantity <= ps[items[k].productId].stock
    ensures Restored(Decremented(ps, items), items) == ps
  {
    var r := Restored(Decremented(ps, items), items);
    RestoreAfterDecrement(ps, items);
    forall pid | pid in ps ensures r[pid] == ps[pid] {
      if HasLine(items, pid) {
        var k :| 0 <= k < |items| && items[k].productId == pid;
      }
    }
  }

  /** Taking an order's lines out of stock right after giving them back
      leaves the catalog as it was: the stock just given back always covers
      the line, so nothing clamps. */
  lemma DecrementUndoesRestore(ps: map<ProductId, Product>, items: seq<CartLine>)
    requires UniqueIds(items)
    ensures Decremented(Restored(ps, items), items) == ps
  {
    var mid := Restored(ps, items);
    var r := Decremented(mid, items);
    RestoredEffect(ps, items);
    DecrementedEffect(mid, items);
    forall pid | pid in ps ensures r[pid] == ps[pid] {
      if HasLine(items, pid) {
        var k :| 0 <= k < |items| && items[k].productId == pid;
      }
    }
  }

  /** Line 527 clamps and line 651 does not: one unit in stock, an order line
      of three, then a cancellation, leaves three units in stock. */
  lemma ClampedCancellationOverRestores(p: Product)
    requires p.stock == 1
    ensures var ps := map[p.id := p];
      var items := [CartLine(p.id, 3, p)];
      Decremented(ps, items)[p.id].stock == 0 && Restored(Decremented(ps, items), items)[p.id].stock == 3
  {
    var ps := map[p.id := p];
    var items := [CartLine(p.id, 3, p)];
    assert items[..0] == [];
  }
}
