/** The route handlers over the store's state. The three collections are the
    contents of products.json, users.json and orders.json; the carts live only
    in memory. A handler that writes a collection takes the outcome of that
    write as `writeOk`: on failure the reply is a 500 and the collection is
    taken to keep its old contents. */
module Storefront {
  import opened Records
  import opened Lookup
  import opened ProductSearch
  import opened Cart
  import opened Orders

  /** The shallow overlay of an update: fields present in the patch replace
      the stored ones, and the id is pinned to the requested one. */
  function Overlay(p: Product, patch: ProductPatch, id: int): (r: Product)
    ensures r.id == id
  {
    Product(
      id,
      patch.name.GetOr(p.name),
      patch.price.GetOr(p.price),
      patch.category.GetOr(p.category),
      patch.description.GetOr(p.description),
      patch.stock.GetOr(p.stock))
  }

  /** A patch without fields leaves the record as it was, apart from the
      pinned id. */
  lemma OverlayEmptyPatch(p: Product, bodyId: Option<int>, id: int)
    ensures Overlay(p, ProductPatch(bodyId, None, None, None, None, None), id) == p.(id := id)
  {
  }

  /** A patch with every field present replaces all of them: the result does
      not depend on the stored record. */
  lemma OverlayFullPatch(p: Product, q: Product, patch: ProductPatch, id: int)
    requires patch.name.Some? && patch.price.Some? && patch.category.Some?
    requires patch.description.Some? && patch.stock.Some?
    ensures Overlay(p, patch, id) == Overlay(q, patch, id)
    ensures Overlay(p, patch, id) == Product(id, patch.name.value, patch.price.value,
                                             patch.category.value, patch.description.value, patch.stock.value)
  {
  }

  /** Whatever id the request body carries, the update ignores it. */
  lemma OverlayIgnoresBodyId(p: Product, patch: ProductPatch, id: int, bodyId: Option<int>)
    ensures Overlay(p, patch.(id := bodyId), id) == Overlay(p, patch, id)
  {
  }

  /** Applying the same update twice changes nothing more. */
  lemma OverlayIdempotent(p: Product, patch: ProductPatch, id: int)
    ensures Overlay(Overlay(p, patch, id), patch, id) == Overlay(p, patch, id)
  {
  }

  class Store {
    var products: seq<Product>
    var users: seq<User>
    var orders: seq<Order>
    var carts: map<string, seq<LineItem>>

    /** The store as the collections are loaded; the carts start empty. */
    constructor (products: seq<Product>, users: seq<User>, orders: seq<Order>)
      ensures this.products == products && this.users == users && this.orders == orders
      ensures carts == map[]
    {
      this.products := products;
      this.users := users;
      this.orders := orders;
      carts := map[];
    }

    /** GET /api/product/:id (and the page at /product/:id). */
    function GetProduct(id: int): (r: Reply<Product>)
      reads this
      ensures r.Failure? <==> forall i :: 0 <= i < |products| ==> products[i].id != id
      ensures r.Failure? ==> r.Status() == 404
      ensures r.Success? ==> r.status == 200 && r.data.id == id
                             && r.data == products[FindIndex(products, ProductId, id)]
    {
      match Find(products, ProductId, id)
      case None => Failure(NotFound)
      case Some(p) => Success(200, p)
    }

    /** GET /api/user/:id. */
    function GetUser(id: int): (r: Reply<User>)
      reads this
      ensures r.Failure? <==> forall i :: 0 <= i < |users| ==> users[i].id != id
      ensures r.Failure? ==> r.Status() == 404
      ensures r.Success? ==> r.status == 200 && r.data.id == id
                             && r.data == users[FindIndex(users, UserId, id)]
    {
      match Find(users, UserId, id)
      case None => Failure(NotFound)
      case Some(u) => Success(200, u)
    }

    /** GET /api/products/search?q=. */
    function SearchProducts(q: Option<string>): (r: seq<Product>)
      reads this
      ensures r == Search(products, q)
      ensures q.None? || q.value == "" ==> r == products
      ensures q.Some? ==> forall p :: multiset(r)[p] == if Matches(p, q.value) then multiset(products)[p] else 0
    {
      Search(products, q)
    }

    /** POST /api/products: the new product gets the next id and goes at the end. */
    method CreateProduct(input: ProductInput, writeOk: bool) returns (reply: Reply<Product>)
      modifies this
      ensures users == old(users) && orders == old(orders) && carts == old(carts)
      ensures var p := Product(NextId(old(products), ProductId), input.name, input.price,
                               input.category, input.description, input.stock);
              if writeOk then products == old(products) + [p] && reply == Success(201, p)
              else products == old(products) && reply == Failure(WriteFailed)
      ensures reply.Success? ==> forall i :: 0 <= i < |old(products)| ==> old(products)[i].id < reply.data.id
      ensures reply.Success? && old(products) == [] ==> reply.data.id == 1
      ensures old(UniqueIds(products, ProductId)) ==> UniqueIds(products, ProductId)
    {
      var loaded := products;
      var id := NextId(loaded, ProductId);
      var p := Product(id, input.name, input.price, input.category, input.description, input.stock);
      loaded := loaded + [p];
      if writeOk {
        if UniqueIds(products, ProductId) {
          AppendNextIdKeepsUnique(products, ProductId, p);
        }
        products := loaded;
        reply := Success(201, p);
      } else {
        reply := Failure(WriteFailed);
      }
    }

    /** PUT /api/product/:id: overlays the patch on the first product with the
        id; nothing else in the collection changes. */
    method UpdateProduct(id: int, patch: ProductPatch, writeOk: bool) returns (reply: Reply<Product>)
      modifies this
      ensures users == old(users) && orders == old(orders) && carts == old(carts)
      ensures reply == Failure(NotFound) <==> forall i :: 0 <= i < |old(products)| ==> old(products)[i].id != id
      ensures reply.Failure? ==> products == old(products)
      ensures reply.Failure? && reply.error != NotFound ==> reply.error == WriteFailed && !writeOk
      ensures reply.Success? ==>
        var k := FindIndex(old(products), ProductId, id);
        && writeOk && reply.status == 200 && 0 <= k
        && products == old(products)[k := Overlay(old(products)[k], patch, id)]
        && reply.data == products[k] && reply.data.id == id
      ensures old(UniqueIds(products, ProductId)) ==> UniqueIds(products, ProductId)
    {
      var loaded := products;
      var k := FindIndex(loaded, ProductId, id);
      if k == -1 {
        return Failure(NotFound);
      }
      loaded := loaded[k := Overlay(loaded[k], patch, id)];
      if writeOk {
        products := loaded;
        reply := Success(200, loaded[k]);
      } else {
        reply := Failure(WriteFailed);
      }
    }

    /** DELETE /api/product/:id: splices out the first product with the id and
        returns it; the others keep their order. */
    method DeleteProduct(id: int, writeOk: bool) returns (reply: Reply<Product>)
      modifies this
      ensures users == old(users) && orders == old(orders) && carts == old(carts)
      ensures reply == Failure(NotFound) <==> forall i :: 0 <= i < |old(products)| ==> old(products)[i].id != id
      ensures reply.Failure? ==> products == old(products)
      ensures reply.Failure? && reply.error != NotFound ==> reply.error == WriteFailed && !writeOk
      ensures reply.Success? ==>
        var k := FindIndex(old(products), ProductId, id);
        && writeOk && reply.status == 200 && 0 <= k
        && reply.data == old(products)[k] && reply.data.id == id
        && products == old(products)[..k] + old(products)[k + 1..]
        && |products| == |old(products)| - 1
      ensures old(UniqueIds(products, ProductId)) ==> UniqueIds(products, ProductId)
    {
      var loaded := products;
      var k := FindIndex(loaded, ProductId, id);
      if k == -1 {
        return Failure(NotFound);
      }
      var deleted := loaded[k];
      loaded := loaded[..k] + loaded[k + 1..];
      if writeOk {
        products := loaded;
        reply := Success(200, deleted);
      } else {
        reply := Failure(WriteFailed);
      }
    }

    /** GET /api/cart/:userId: the user's cart, or an empty one. */
    function GetCart(userId: string): (r: seq<LineItem>)
      reads this
      ensures userId in carts ==> r == carts[userId]
      ensures userId !in carts ==> r == []
    {
      if userId in carts then carts[userId] else []
    }

    /** POST /api/cart/:userId/add: creates the cart on first use, then adds
        the quantity (1 when absent) for the product. Other carts are untouched. */
    method AddToCart(userId: string, productId: int, quantity: Option<int>) returns (cart: seq<LineItem>)
      modifies this
      ensures products == old(products) && users == old(users) && orders == old(orders)
      ensures carts == old(carts)[userId := AddItem(old(GetCart(userId)), productId, quantity.GetOr(1))]
      ensures cart == carts[userId]
      ensures old(DistinctProducts(GetCart(userId))) ==> DistinctProducts(carts[userId])
    {
      var current: seq<LineItem> := [];
      if userId in carts {
        current := carts[userId];
      }
      var amount := quantity.GetOr(1);
      var k := FindIndex(current, ItemProductId, productId);
      if k == -1 {
        current := current + [LineItem(productId, amount)];
      } else {
        current := current[k := current[k].(quantity := current[k].quantity + amount)];
      }
      if DistinctProducts(GetCart(userId)) {
        AddItemKeepsDistinct(GetCart(userId), productId, amount);
      }
      carts := carts[userId := current];
      cart := current;
    }

    /** POST /api/orders: prices the request against the catalogue; on the
        first unknown product or short stock the order is rejected and nothing
        is stored. Otherwise the order gets the next id and status "pending".
        The catalogue is never changed, so stock is not decremented. */
    method CreateOrder(userId: int, items: seq<LineItem>, writeOk: bool) returns (reply: Reply<Order>)
      modifies this
      ensures products == old(products) && users == old(users) && carts == old(carts)
      ensures Checkout(old(products), items).Err? ==>
        reply == Failure(Checkout(old(products), items).error) && orders == old(orders)
      ensures Checkout(old(products), items).Ok? && !writeOk ==>
        reply == Failure(WriteFailed) && orders == old(orders)
      ensures Checkout(old(products), items).Ok? && writeOk ==>
        var priced := Checkout(old(products), items).value;
        && reply == Success(201, Order(NextId(old(orders), OrderId), userId, priced.lines, priced.total, Pending))
        && orders == old(orders) + [reply.data]
      ensures reply.Success? ==> forall i :: 0 <= i < |old(orders)| ==> old(orders)[i].id < reply.data.id
      ensures old(UniqueIds(orders, OrderId)) ==> UniqueIds(orders, OrderId)
    {
      var loaded := orders;
      var priced := PriceOrder(products, items);
      if priced.Err? {
        return Failure(priced.error);
      }
      var order := Order(NextId(loaded, OrderId), userId, priced.value.lines, priced.value.total, Pending);
      loaded := loaded + [order];
      if writeOk {
        if UniqueIds(orders, OrderId) {
          AppendNextIdKeepsUnique(orders, OrderId, order);
        }
        orders := loaded;
        reply := Success(201, order);
      } else {
        reply := Failure(WriteFailed);
      }
    }
  }
}
