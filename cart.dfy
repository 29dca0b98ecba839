/** A user's cart: an ordered list of `{productId, quantity}` entries. */
module Cart {
  import opened Records
  import opened Lookup

  /** No product appears twice in the cart. */
  ghost predicate DistinctProducts(cart: seq<LineItem>) {
    UniqueIds(cart, ItemProductId)
  }

  /** Adding `quantity` of a product: the first entry for that product has its
      quantity increased; without one, a new entry goes at the end. */
  function AddItem(cart: seq<LineItem>, productId: int, quantity: int): (r: seq<LineItem>)
    ensures var k := FindIndex(cart, ItemProductId, productId);
      && (k == -1 ==> r == cart + [LineItem(productId, quantity)])
      && (k != -1 ==> |r| == |cart| && r[k] == LineItem(productId, cart[k].quantity + quantity)
                      && forall j :: 0 <= j < |cart| && j != k ==> r[j] == cart[j])
  {
    var k := FindIndex(cart, ItemProductId, productId);
    if k == -1 then cart + [LineItem(productId, quantity)]
    else cart[k := cart[k].(quantity := cart[k].quantity + quantity)]
  }

  /** Adding never makes a product appear twice. */
  lemma AddItemKeepsDistinct(cart: seq<LineItem>, productId: int, quantity: int)
    requires DistinctProducts(cart)
    ensures DistinctProducts(AddItem(cart, productId, quantity))
  {
  }


  /** Two adds of the same product accumulate into one entry. */
  lemma AddItemTwice(cart: seq<LineItem>, productId: int, a: int, b: int)
    ensures AddItem(AddItem(cart, productId, a), productId, b) == AddItem(cart, productId, a + b)
  {
    var k := FindIndex(cart, ItemProductId, productId);
    if k == -1 {
      var once := cart + [LineItem(productId, a)];
      assert AddItem(cart, productId, a) == once;
      FindIndexAppend(cart, ItemProductId, LineItem(productId, a));
      assert AddItem(once, productId, b) == once[|cart| := LineItem(productId, a + b)];
      assert once[|cart| := LineItem(productId, a + b)] == cart + [LineItem(productId, a + b)];
    } else {
      var item := cart[k].(quantity := cart[k].quantity + a);
      var once := cart[k := item];
      assert AddItem(cart, productId, a) == once;
      FindIndexUpdate(cart, ItemProductId, k, item);
      assert AddItem(once, productId, b) == once[k := item.(quantity := item.quantity + b)];
      assert once[k := item.(quantity := item.quantity + b)]
          == cart[k := cart[k].(quantity := cart[k].quantity + (a + b))];
    }
  }

  /** The total quantity of a product over all its entries: an independent
      account of what the cart holds. */
  function QuantityOf(cart: seq<LineItem>, productId: int): int
    decreases |cart|
  {
    if |cart| == 0 then 0
    else (if cart[0].productId == productId then cart[0].quantity else 0) + QuantityOf(cart[1..], productId)
  }

  lemma {:induction false} QuantityOfAppend(cart: seq<LineItem>, item: LineItem, productId: int)
    ensures QuantityOf(cart + [item], productId)
         == QuantityOf(cart, productId) + (if item.productId == productId then item.quantity else 0)
    decreases |cart|
  {
    if |cart| > 0 {
      assert (cart + [item])[1..] == cart[1..] + [item];
      QuantityOfAppend(cart[1..], item, productId);
    }
  }

  lemma {:induction false} QuantityOfUpdate(cart: seq<LineItem>, k: nat, item: LineItem, productId: int)
    requires k < |cart|
    ensures QuantityOf(cart[k := item], productId)
         == QuantityOf(cart, productId)
            - (if cart[k].productId == productId then cart[k].quantity else 0)
            + (if item.productId == productId then item.quantity else 0)
    decreases |cart|
  {
    if k > 0 {
      assert cart[k := item][1..] == cart[1..][k - 1 := item];
      QuantityOfUpdate(cart[1..], k - 1, item, productId);
    }
  }

  /** Adding `quantity` of a product raises its total by exactly that much and
      leaves every other product's total as it was. */
  lemma AddItemQuantity(cart: seq<LineItem>, productId: int, quantity: int, other: int)
    ensures QuantityOf(AddItem(cart, productId, quantity), productId) == QuantityOf(cart, productId) + quantity
    ensures other != productId ==>
      QuantityOf(AddItem(cart, productId, quantity), other) == QuantityOf(cart, other)
  {
    var k := FindIndex(cart, ItemProductId, productId);
    if k == -1 {
      QuantityOfAppend(cart, LineItem(productId, quantity), productId);
      QuantityOfAppend(cart, LineItem(productId, quantity), other);
    } else {
      var item := cart[k].(quantity := cart[k].quantity + quantity);
      QuantityOfUpdate(cart, k, item, productId);
      QuantityOfUpdate(cart, k, item, other);
    }
  }
}
