/** Pricing an order request against the catalogue: every requested item must
    name an existing product with enough stock, or the whole order is
    rejected with the first offending item. */
module Orders {
  import opened Records
  import opened Lookup

  /** The snapshots of an accepted order and their running total in cents. */
  datatype Priced = Priced(lines: seq<OrderLine>, total: int)

  /** `i` is the index of the first product whose id is `id`, the one that
      `find` returns. */
  ghost predicate IsFirstWithId(catalog: seq<Product>, id: int, i: int) {
    0 <= i < |catalog| && catalog[i].id == id
    && forall j :: 0 <= j < i ==> catalog[j].id != id
  }

  /** One requested item checked against the catalogue: the first product with
      its id must exist and hold at least the requested quantity; the snapshot
      copies that product's id, name and price. */
  function CheckItem(catalog: seq<Product>, item: LineItem): (r: Result<OrderLine>)
    ensures r.Ok? <==> exists i :: IsFirstWithId(catalog, item.productId, i)
                                   && item.quantity <= catalog[i].stock
    ensures r.Ok? ==> exists i :: IsFirstWithId(catalog, item.productId, i)
                                  && r.value == OrderLine(catalog[i].id, catalog[i].name, catalog[i].price, item.quantity)
    ensures r == Err(UnknownProduct(item.productId)) <==>
              forall i :: 0 <= i < |catalog| ==> catalog[i].id != item.productId
    ensures r.Err? && r.error != UnknownProduct(item.productId) ==>
              exists i :: IsFirstWithId(catalog, item.productId, i)
                          && catalog[i].stock < item.quantity && r.error == OutOfStock(catalog[i].name)
    ensures r.Err? ==> r.error.Status() == 400
  {
    var k := FindIndex(catalog, ProductId, item.productId);
    if k == -1 then Err(UnknownProduct(item.productId))
    else
      var p := catalog[k];
      if p.stock < item.quantity then Err(OutOfStock(p.name))
      else Ok(OrderLine(p.id, p.name, p.price, item.quantity))
  }

  /** The order's snapshots and total: the items before the last are priced
      first, so the first failing item decides the error. */
  function Checkout(catalog: seq<Product>, items: seq<LineItem>): Result<Priced>
    decreases |items|
  {
    if |items| == 0 then Ok(Priced([], 0))
    else
      match Checkout(catalog, items[..|items| - 1])
      case Err(e) => Err(e)
      case Ok(acc) =>
        match CheckItem(catalog, items[|items| - 1])
        case Err(e) => Err(e)
        case Ok(line) => Ok(Priced(acc.lines + [line], acc.total + line.price * line.quantity))
  }

  /** The sum of price times quantity over the snapshots. */
  function Subtotal(lines: seq<OrderLine>): int
    decreases |lines|
  {
    if |lines| == 0 then 0
    else lines[0].price * lines[0].quantity + Subtotal(lines[1..])
  }

  lemma {:induction false} SubtotalAppend(lines: seq<OrderLine>, line: OrderLine)
    ensures Subtotal(lines + [line]) == Subtotal(lines) + line.price * line.quantity
    decreases |lines|
  {
    if |lines| > 0 {
      assert (lines + [line])[1..] == lines[1..] + [line];
      SubtotalAppend(lines[1..], line);
    }
  }

  /** Once a prefix of the request is rejected, the whole request is rejected
      with the same error. */
  lemma {:induction false} CheckoutPrefixErr(catalog: seq<Product>, items: seq<LineItem>, k: nat)
    requires k <= |items|
    requires Checkout(catalog, items[..k]).Err?
    ensures Checkout(catalog, items) == Checkout(catalog, items[..k])
    decreases |items|
  {
    if k == |items| {
      assert items[..k] == items;
    } else {
      var init := items[..|items| - 1];
      assert init[..k] == items[..k];
      CheckoutPrefixErr(catalog, init, k);
    }
  }

  /** The order is accepted exactly when every requested item passes. */
  lemma {:induction false} CheckoutOkIff(catalog: seq<Product>, items: seq<LineItem>)
    ensures Checkout(catalog, items).Ok? <==> forall i :: 0 <= i < |items| ==> CheckItem(catalog, items[i]).Ok?
    decreases |items|
  {
    if |items| > 0 {
      var init := items[..|items| - 1];
      CheckoutOkIff(catalog, init);
      assert forall i :: 0 <= i < |init| ==> init[i] == items[i];
    }
  }

  /** An accepted order carries one snapshot per requested item, in request
      order, and its total is their subtotal. */
  lemma {:induction false} CheckoutLines(catalog: seq<Product>, items: seq<LineItem>)
    requires Checkout(catalog, items).Ok?
    ensures var priced := Checkout(catalog, items).value;
      && |priced.lines| == |items|
      && (forall i :: 0 <= i < |items| ==> CheckItem(catalog, items[i]) == Ok(priced.lines[i]))
      && priced.total == Subtotal(priced.lines)
    decreases |items|
  {
    if |items| > 0 {
      var priced := Checkout(catalog, items).value;
      var init := items[..|items| - 1];
      assert Checkout(catalog, init).Ok?;
      CheckoutLines(catalog, init);
      var acc := Checkout(catalog, init).value;
      var line := CheckItem(catalog, items[|items| - 1]).value;
      assert priced == Priced(acc.lines + [line], acc.total + line.price * line.quantity);
      SubtotalAppend(acc.lines, line);
      forall i | 0 <= i < |items| ensures CheckItem(catalog, items[i]) == Ok(priced.lines[i]) {
        if i < |init| {
          assert init[i] == items[i];
        }
      }
    }
  }

  /** Each snapshot of an accepted order copies the id, name and price of the
      product that `find` returns for its item, with the requested quantity. */
  lemma CheckoutSnapshots(catalog: seq<Product>, items: seq<LineItem>, i: int)
    requires Checkout(catalog, items).Ok? && 0 <= i < |items|
    ensures var lines := Checkout(catalog, items).value.lines;
      && |lines| == |items|
      && exists k :: (IsFirstWithId(catalog, items[i].productId, k)
        && lines[i] == OrderLine(catalog[k].id, catalog[k].name, catalog[k].price, items[i].quantity))
  {
    CheckoutLines(catalog, items);
  }

  /** A rejected order names the first item that fails its check. */
  lemma {:induction false} CheckoutFirstError(catalog: seq<Product>, items: seq<LineItem>)
    requires Checkout(catalog, items).Err?
    ensures exists k :: (0 <= k < |items|
      && (forall j :: 0 <= j < k ==> CheckItem(catalog, items[j]).Ok?)
      && CheckItem(catalog, items[k]) == Err(Checkout(catalog, items).error))
    decreases |items|
  {
    var init := items[..|items| - 1];
    assert forall i :: 0 <= i < |init| ==> init[i] == items[i];
    if Checkout(catalog, init).Err? {
      CheckoutFirstError(catalog, init);
    } else {
      CheckoutOkIff(catalog, init);
    }
  }

  /** Stock is checked item by item, not per product: two requests for the
      one unit in stock are both accepted. */
  lemma StockCheckedPerItem(p: Product)
    requires p.stock == 1
    ensures Checkout([p], [LineItem(p.id, 1), LineItem(p.id, 1)]).Ok?
  {
    var items := [LineItem(p.id, 1), LineItem(p.id, 1)];
    assert FindIndex([p], ProductId, p.id) == 0;
    assert CheckItem([p], LineItem(p.id, 1)).Ok?;
    CheckoutOkIff([p], items);
  }

  /** An item whose product (the first with its id) has less stock than
      requested rejects the whole order with a 400 naming that product, once
      the items before it pass. */
  lemma OutOfStockRejects(catalog: seq<Product>, k: int, before: seq<LineItem>, item: LineItem, after: seq<LineItem>)
    requires IsFirstWithId(catalog, item.productId, k) && catalog[k].stock < item.quantity
    requires forall j :: 0 <= j < |before| ==> CheckItem(catalog, before[j]).Ok?
    ensures Checkout(catalog, before + [item] + after) == Err(OutOfStock(catalog[k].name))
  {
    var items := before + [item] + after;
    var n := |before| + 1;
    assert FindIndex(catalog, ProductId, item.productId) == k;
    assert items[..n][..n - 1] == before;
    assert items[..n][n - 1] == item;
    CheckoutOkIff(catalog, before);
    CheckoutPrefixErr(catalog, items, n);
  }

  /** The loop of the order route: walks the requested items in order,
      returning at the first one that fails, accumulating snapshots and the
      total otherwise. */
  method PriceOrder(catalog: seq<Product>, items: seq<LineItem>) returns (r: Result<Priced>)
    ensures r == Checkout(catalog, items)
  {
    var total := 0;
    var lines: seq<OrderLine> := [];
    for i := 0 to |items|
      invariant Checkout(catalog, items[..i]) == Ok(Priced(lines, total))
    {
      var item := items[i];
      assert items[..i + 1][..i] == items[..i];
      var k := FindIndex(catalog, ProductId, item.productId);
      if k == -1 {
        CheckoutPrefixErr(catalog, items, i + 1);
        return Err(UnknownProduct(item.productId));
      }
      var product := catalog[k];
      if product.stock < item.quantity {
        CheckoutPrefixErr(catalog, items, i + 1);
        return Err(OutOfStock(product.name));
      }
      total := total + product.price * item.quantity;
      lines := lines + [OrderLine(product.id, product.name, product.price, item.quantity)];
    }
    assert items[..|items|] == items;
    return Ok(Priced(lines, total));
  }
}
