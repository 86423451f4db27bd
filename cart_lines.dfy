/** The lines of one cart: lookup, the add / set-quantity / remove rules the cart
    routes apply, and the checkout total. */
module CartLines {
  import opened StoreTypes

  /** No two lines share a product id. */
  ghost predicate UniqueIds(items: seq<CartLine>) {
    forall i, j :: 0 <= i < j < |items| ==> items[i].productId != items[j].productId
  }

  /** Every line asks for at least one unit. */
  ghost predicate AllPositive(items: seq<CartLine>) {
    forall i :: 0 <= i < |items| ==> items[i].quantity > 0
  }

  /** The shape every stored cart and every order's item list keeps. */
  ghost predicate WellFormed(items: seq<CartLine>) {
    UniqueIds(items) && AllPositive(items)
  }

  predicate HasLine(items: seq<CartLine>, pid: ProductId) {
    exists i :: 0 <= i < |items| && items[i].productId == pid
  }

  /** `items.findIndex(item => item.productId === pid)`: the first line for
      `pid`, or -1 when there is none. */
  function IndexOf(items: seq<CartLine>, pid: ProductId): (i: int)
    ensures -1 <= i < |items|
    ensures i == -1 <==> !HasLine(items, pid)
    ensures i >= 0 ==> items[i].productId == pid
    ensures i >= 0 ==> forall k :: 0 <= k < i ==> items[k].productId != pid
  {
    if |items| == 0 then -1
    else if items[0].productId == pid then 0
    else
      var j := IndexOf(items[1..], pid);
      assert forall k :: 1 <= k < |items| ==> items[k] == items[1..][k - 1];
      if j < 0 then -1 else j + 1
  }

  /** The quantity the cart holds of `pid` (0 when it has no line for it). */
  function QuantityOf(items: seq<CartLine>, pid: ProductId): (q: nat)
    ensures !HasLine(items, pid) ==> q == 0
    ensures UniqueIds(items) ==> forall k :: 0 <= k < |items| && items[k].productId == pid ==> q == items[k].quantity
  {
    var i := IndexOf(items, pid);
    if i < 0 then 0 else items[i].quantity
  }

  /** IndexOf looks at product ids only. */
  lemma {:induction false} IndexOfSameIds(a: seq<CartLine>, b: seq<CartLine>, pid: ProductId)
    requires |a| == |b|
    requires forall k :: 0 <= k < |a| ==> a[k].productId == b[k].productId
    ensures IndexOf(a, pid) == IndexOf(b, pid)
  {
    if |a| > 0 && a[0].productId != pid {
      IndexOfSameIds(a[1..], b[1..], pid);
    }
  }

  /** A line appended for a product the cart did not hold leaves every other lookup alone. */
  lemma IndexOfAppend(items: seq<CartLine>, line: CartLine, pid: ProductId)
    requires pid != line.productId
    ensures IndexOf(items + [line], pid) == IndexOf(items, pid)
  {
    var i, j := IndexOf(items + [line], pid), IndexOf(items, pid);
    assert (items + [line])[|items|] == line;
    if i >= 0 {
      assert (items + [line])[i] == items[i];
      assert j >= 0;
    }
    if j >= 0 {
      assert (items + [line])[j] == items[j];
    }
  }

  /** POST /cart (lines 403-437): add `quantity` units of `pid`, merging into
      the line the cart already has for it. A request below one unit is refused
      (see the finding on AddQuantityAsWritten); then a missing product, a
      product without stock, and a merged quantity above the stock. A merged
      line keeps the product snapshot it was created with. */
  function AddItem(catalog: map<ProductId, Product>, items: seq<CartLine>, pid: ProductId, quantity: int)
    : (r: Result<seq<CartLine>>)
    ensures r.Err? <==>
      quantity <= 0 || pid !in catalog || catalog[pid].stock == 0
      || QuantityOf(items, pid) + quantity > catalog[pid].stock
    ensures quantity <= 0 ==> r == Err(InvalidQuantity)
    ensures quantity > 0 && pid !in catalog ==> r == Err(ProductNotFound)
    ensures quantity > 0 && pid in catalog && catalog[pid].stock == 0 ==> r == Err(OutOfStock)
    ensures r.Err? && quantity > 0 && pid in catalog && catalog[pid].stock > 0 ==>
      r == Err(InsufficientStock(catalog[pid].stock))
    ensures r.Ok? ==> QuantityOf(r.value, pid) == QuantityOf(items, pid) + quantity <= catalog[pid].stock
    ensures r.Ok? ==> forall q :: q != pid ==> QuantityOf(r.value, q) == QuantityOf(items, q)
    ensures r.Ok? && HasLine(items, pid) ==>
      && |r.value| == |items|
      && (forall k :: 0 <= k < |items| ==>
            r.value[k].productId == items[k].productId && r.value[k].product == items[k].product)
      && (forall k :: 0 <= k < |items| && items[k].productId != pid ==> r.value[k] == items[k])
    ensures r.Ok? && !HasLine(items, pid) ==> r.value == items + [CartLine(pid, quantity, catalog[pid])]
    ensures r.Ok? && WellFormed(items) ==> WellFormed(r.value)
  {
    if quantity <= 0 then Err(InvalidQuantity)
    else if pid !in catalog then Err(ProductNotFound)
    else if catalog[pid].stock == 0 then Err(OutOfStock)
    else
      var i := IndexOf(items, pid);
      var newQuantity := if i >= 0 then items[i].quantity + quantity else quantity;
      if newQuantity > catalog[pid].stock then Err(InsufficientStock(catalog[pid].stock))
      else if i >= 0 then
        SetLineQuantity(items, i, newQuantity);
        Ok(items[i := items[i].(quantity := newQuantity)])
      else
        var line := CartLine(pid, quantity, catalog[pid]);
        AppendNewLine(items, line);
        Ok(items + [line])
  }

  /** PUT /cart/:productId (lines 452-471): set the quantity of the line for
      `pid`. A cart without such a line answers ItemNotFound; a quantity of
      zero or less removes the line; a positive quantity above the product's
      current stock is refused, and a product no longer in the catalog is not
      checked at all. */
  function SetQuantity(catalog: map<ProductId, Product>, items: seq<CartLine>, pid: ProductId, quantity: int)
    : (r: Result<seq<CartLine>>)
    ensures r == Err(ItemNotFound) <==> !HasLine(items, pid)
    ensures HasLine(items, pid) && quantity <= 0 ==> r.Ok? && |r.value| == |items| - 1
    ensures HasLine(items, pid) && quantity <= 0 && UniqueIds(items) ==> r == Ok(RemoveLines(items, pid))
    ensures HasLine(items, pid) && quantity > 0 ==>
      (r.Err? <==> pid in catalog && quantity > catalog[pid].stock)
    ensures r.Err? && HasLine(items, pid) ==> r == Err(InsufficientStock(catalog[pid].stock))
    ensures r.Ok? && quantity > 0 ==>
      && QuantityOf(r.value, pid) == quantity
      && |r.value| == |items|
      && (forall k :: 0 <= k < |items| ==>
            r.value[k].productId == items[k].productId && r.value[k].product == items[k].product)
      && (forall k :: 0 <= k < |items| && items[k].productId != pid ==> r.value[k] == items[k])
    ensures r.Ok? && WellFormed(items) ==> WellFormed(r.value)
  {
    var i := IndexOf(items, pid);
    if i < 0 then Err(ItemNotFound)
    else if quantity <= 0 then
      SpliceLine(items, i);
      Ok(items[..i] + items[i + 1..])
    else if pid in catalog && quantity > catalog[pid].stock then Err(InsufficientStock(catalog[pid].stock))
    else
      SetLineQuantity(items, i, quantity);
      Ok(items[i := items[i].(quantity := quantity)])
  }

  /** Overwriting the quantity of the first line for a product changes that
      product's quantity and no other, and keeps a well-formed cart
      well-formed. */
  lemma SetLineQuantity(items: seq<CartLine>, i: nat, q: nat)
    requires i < |items| && IndexOf(items, items[i].productId) == i
    ensures var u := items[i := items[i].(quantity := q)];
      && |u| == |items|
      && (forall k :: 0 <= k < |items| ==> u[k].productId == items[k].productId && u[k].product == items[k].product)
      && (forall k :: 0 <= k < |items| && items[k].productId != items[i].productId ==> u[k] == items[k])
      && QuantityOf(u, items[i].productId) == q
      && (forall p :: p != items[i].productId ==> QuantityOf(u, p) == QuantityOf(items, p))
      && (WellFormed(items) && q > 0 ==> WellFormed(u))
  {
    var u := items[i := items[i].(quantity := q)];
    forall p ensures IndexOf(u, p) == IndexOf(items, p) {
      IndexOfSameIds(u, items, p);
    }
  }

  /** Appending a line for a product the cart does not hold gives that product
      the line's quantity and leaves every other product alone. */
  lemma AppendNewLine(items: seq<CartLine>, line: CartLine)
    requires !HasLine(items, line.productId)
    ensures QuantityOf(items + [line], line.productId) == line.quantity
    ensures forall p :: p != line.productId ==> QuantityOf(items + [line], p) == QuantityOf(items, p)
    ensures WellFormed(items) && line.quantity > 0 ==> WellFormed(items + [line])
  {
    assert (items + [line])[|items|] == line;
    assert forall k :: 0 <= k < |items| ==> (items + [line])[k] == items[k];
    assert IndexOf(items + [line], line.productId) == |items|;
    forall p | p != line.productId ensures IndexOf(items + [line], p) == IndexOf(items, p) {
      IndexOfAppend(items, line, p);
    }
  }

  /** Splicing out the first line for a product: with unique ids this is the
      removal filter, and it keeps a well-formed cart well-formed. */
  lemma SpliceLine(items: seq<CartLine>, i: nat)
    requires i < |items| && IndexOf(items, items[i].productId) == i
    ensures |items[..i] + items[i + 1..]| == |items| - 1
    ensures UniqueIds(items) ==> items[..i] + items[i + 1..] == RemoveLines(items, items[i].productId)
    ensures WellFormed(items) ==> WellFormed(items[..i] + items[i + 1..])
  {
    var rest := items[..i] + items[i + 1..];
    if WellFormed(items) {
      forall a, b | 0 <= a < b < |rest| ensures rest[a].productId != rest[b].productId {
        SpliceIndex(items, i, a);
        SpliceIndex(items, i, b);
      }
      forall a | 0 <= a < |rest| ensures rest[a].quantity > 0 {
        SpliceIndex(items, i, a);
      }
    }
    if UniqueIds(items) {
      RemoveLinesAtUnique(items, i, items[i].productId);
    }
  }

  /** Where the k-th line of a splice comes from. */
  lemma SpliceIndex(items: seq<CartLine>, i: nat, k: nat)
    requires i < |items| && k < |items| - 1
    ensures (items[..i] + items[i + 1..])[k] == items[if k < i then k else k + 1]
  {
  }

  /** `items.filter(item => item.productId !== pid)`. */
  function RemoveLines(items: seq<CartLine>, pid: ProductId): (r: seq<CartLine>)
    ensures forall l :: l in r <==> l in items && l.productId != pid
    ensures |r| <= |items|
  {
    if items == [] then []
    else
      assert forall l :: l in items <==> l == items[0] || l in items[1..];
      (if items[0].productId == pid then [] else [items[0]]) + RemoveLines(items[1..], pid)
  }

  /** Filtering distributes over concatenation: kept lines stay in order. */
  lemma {:induction false} RemoveLinesAppend(a: seq<CartLine>, b: seq<CartLine>, pid: ProductId)
    ensures RemoveLines(a + b, pid) == RemoveLines(a, pid) + RemoveLines(b, pid)
  {
    if a != [] {
      assert (a + b)[1..] == a[1..] + b;
      RemoveLinesAppend(a[1..], b, pid);
    } else {
      assert a + b == b;
    }
  }

  /** Removing a product the cart does not hold changes nothing. */
  lemma {:induction false} RemoveLinesAbsent(items: seq<CartLine>, pid: ProductId)
    requires !HasLine(items, pid)
    ensures RemoveLines(items, pid) == items
  {
    if items != [] {
      assert !HasLine(items[1..], pid) by {
        forall k | 0 <= k < |items[1..]| ensures items[1..][k].productId != pid {
          assert items[1..][k] == items[k + 1];
        }
      }
      RemoveLinesAbsent(items[1..], pid);
      assert items == [items[0]] + items[1..];
    }
  }

  /** Removal is idempotent. */
  lemma RemoveLinesIdempotent(items: seq<CartLine>, pid: ProductId)
    ensures RemoveLines(RemoveLines(items, pid), pid) == RemoveLines(items, pid)
  {
    RemoveLinesAbsent(RemoveLines(items, pid), pid);
  }

  /** With unique product ids, filtering out `pid` is splicing out its one line:
      the set-quantity route's `splice` and the remove route's `filter` agree. */
  lemma RemoveLinesAtUnique(items: seq<CartLine>, i: nat, pid: ProductId)
    requires UniqueIds(items)
    requires i < |items| && items[i].productId == pid
    ensures RemoveLines(items, pid) == items[..i] + items[i + 1..]
  {
    assert forall k :: 0 <= k < |items| && k != i ==> items[k].productId != pid by {
      forall k | 0 <= k < |items| && k != i ensures items[k].productId != pid {
        if k < i { assert items[k].productId != items[i].productId; }
        else { assert items[i].productId != items[k].productId; }
      }
    }
    RemoveLinesAtOnly(items, i, pid);
  }

  /** The same, for a cart whose only line for `pid` is the i-th. */
  lemma RemoveLinesAtOnly(items: seq<CartLine>, i: nat, pid: ProductId)
    requires i < |items| && items[i].productId == pid
    requires forall k :: 0 <= k < |items| && k != i ==> items[k].productId != pid
    ensures RemoveLines(items, pid) == items[..i] + items[i + 1..]
  {
    var before, after := items[..i], items[i + 1..];
    NoLineInSlice(items, 0, i, pid);
    NoLineInSlice(items, i + 1, |items|, pid);
    RemoveLinesAbsent(before, pid);
    RemoveLinesAbsent(after, pid);
    SplitAt(items, i);
    RemoveLinesSplice(before, items[i], after, pid);
  }

  /** A sequence is its part before i, its i-th element and its part after i. */
  lemma SplitAt(items: seq<CartLine>, i: nat)
    requires i < |items|
    ensures items == items[..i] + [items[i]] + items[i + 1..]
  {
    assert items[i..] == [items[i]] + items[i + 1..];
    assert items == items[..i] + items[i..];
  }

  /** Filtering out the one line for `pid` that sits between two runs the
      filter keeps whole. */
  lemma RemoveLinesSplice(before: seq<CartLine>, line: CartLine, after: seq<CartLine>, pid: ProductId)
    requires RemoveLines(before, pid) == before && RemoveLines(after, pid) == after
    requires line.productId == pid
    ensures RemoveLines(before + [line] + after, pid) == before + after
  {
    assert RemoveLines([line], pid) == [] by {
      assert [line][1..] == [];
    }
    RemoveLinesAppend(before + [line], after, pid);
    RemoveLinesAppend(before, [line], pid);
    assert before + [] == before;
  }

  /** A slice none of whose lines is for `pid` has no line for it. */
  lemma NoLineInSlice(items: seq<CartLine>, lo: nat, hi: nat, pid: ProductId)
    requires lo <= hi <= |items|
    requires forall k :: lo <= k < hi ==> items[k].productId != pid
    ensures !HasLine(items[lo..hi], pid)
  {
    forall k | 0 <= k < hi - lo ensures items[lo..hi][k].productId != pid {
      assert items[lo..hi][k] == items[lo + k];
    }
  }

  /** Removing keeps a well-formed cart well-formed. */
  lemma RemoveLinesWellFormed(items: seq<CartLine>, pid: ProductId)
    requires WellFormed(items)
    ensures WellFormed(RemoveLines(items, pid))
  {
    var i := IndexOf(items, pid);
    if i < 0 {
      RemoveLinesAbsent(items, pid);
    } else {
      SpliceLine(items, i);
    }
  }

  /** The order total: `items.reduce((sum, item) => sum + item.product.price * item.quantity, 0)`,
      a left fold over the lines' snapshot prices. */
  function Total(items: seq<CartLine>): (r: int)
    ensures (forall k :: 0 <= k < |items| ==> items[k].product.price >= 0) ==> r >= 0
  {
    if items == [] then 0
    else Total(items[..|items| - 1]) + items[|items| - 1].product.price * items[|items| - 1].quantity
  }

  /** The total is additive over concatenation. */
  lemma {:induction false} TotalAppend(a: seq<CartLine>, b: seq<CartLine>)
    ensures Total(a + b) == Total(a) + Total(b)
  {
    if b == [] {
      assert a + b == a;
    } else {
      assert (a + b)[..|a + b| - 1] == a + b[..|b| - 1];
      TotalAppend(a, b[..|b| - 1]);
    }
  }

  /** The fold agrees with the sum taken from the front. */
  lemma {:induction false} TotalFromFront(items: seq<CartLine>)
    requires items != []
    ensures Total(items) == items[0].product.price * items[0].quantity + Total(items[1..])
  {
    assert items == [items[0]] + items[1..];
    TotalAppend([items[0]], items[1..]);
    assert [items[0]][..0] == [];
  }

  /** Lines 411-425 as the source has them: the guards an add passes, on the
      request's raw `quantity`, which the route never checks to be positive.
      The result is the quantity the line then holds, or None when refused. */
  function AddQuantityAsWritten(stock: nat, existing: Option<nat>, quantity: int): (r: Option<int>)
    ensures r.Some? ==> r.value <= stock
  {
    if stock <= 0 then None
    else
      var newQuantity := match existing case Some(q) => q + quantity case None => quantity;
      if newQuantity > stock then None else Some(newQuantity)
  }

  /** The route as written stores a line of -2 units for a product with 5 in
      stock, and the checkout's `Math.max(0, stock - quantity)` then raises the
      stock from 5 to 7. A CartLine of this model holds a `nat`, so the rise is
      shown on the checkout's arithmetic, not through `Decremented`. */
  lemma AsWrittenAcceptsNegativeQuantity()
    ensures AddQuantityAsWritten(5, None, -2) == Some(-2)
    ensures var q := AddQuantityAsWritten(5, None, -2).value; Floor0(5 - q) == 7
  {
  }

  /** For every positive quantity the corrected AddItem decides as the route
      does and stores the same quantity. */
  lemma AddItemAgreesWithAsWritten(catalog: map<ProductId, Product>, items: seq<CartLine>, pid: ProductId, quantity: int)
    requires quantity > 0 && pid in catalog
    ensures var existing := if HasLine(items, pid) then Some(QuantityOf(items, pid)) else None;
      var w := AddQuantityAsWritten(catalog[pid].stock, existing, quantity);
      var r := AddItem(catalog, items, pid, quantity);
      (r.Ok? <==> w.Some?) && (r.Ok? ==> QuantityOf(r.value, pid) == w.value)
  {
  }
}
