# express-store: the collection logic of the route handlers

This project models the in-memory logic of a small Express storefront
(`app.js`). The service keeps three JSON-file collections: products, users
and orders. It also keeps a per-user shopping cart in process memory. The
read routes only load a collection and look up or filter records in it. The
handlers that change a collection load it, change records and write it back.
The cart routes load no collection and work on the in-memory carts alone. The
model keeps that logic and drops HTTP and the file system:

- `records.dfy` (module `Records`): the records (`Product`, `User`, `Order`
  with its `OrderLine` snapshots, `LineItem` for `{productId, quantity}`), the
  request bodies, and the replies. The errors are not-found (404), unknown
  product or short stock (400), and write failure (500). Prices and totals
  are whole cents.
- `lookup.dfy` (module `Lookup`): `find`/`findIndex` by id (the first match)
  and the next-id rule (largest id plus one, or 1 for an empty collection).
  These are generic over the function that reads a record's id.
- `search.dfy` (module `ProductSearch`): the case-insensitive substring
  search over name, description and category.
- `cart.dfy` (module `Cart`): adding a product to a cart.
- `orders.dfy` (module `Orders`): pricing an order request with
  all-or-nothing validation. `Checkout` is the reference definition.
  `PriceOrder` is the route's loop, proved equal to it.
- `store.dfy` (module `Storefront`): the class `Store`. Its fields are the
  three collections and the cart map. Its methods are the handlers that
  change state. Each one that writes a file takes the write's outcome as a
  `writeOk` parameter. On failure the reply is a 500, the request-local copy
  that the handler already changed is dropped, and the stored collection is
  taken to keep its old contents (see "Left out" for when it does not).

Lookups and searches are functions on the store. Create, update, delete, cart
add and order creation are methods. Their postconditions state the whole new
state and what is left unchanged. Each also keeps the invariant of what it
changes. Create, update and delete keep product ids unique. Order creation
keeps order ids unique. Cart add keeps the user's cart free of repeated
products. The users collection is only read.

The search returns the full list when the query is absent or empty (`!q`,
app.js:230). For the empty
string this agrees with filtering anyway (`FilterEmptyQuery`). Stock is
checked per requested item and never per product, so repeated items can
together exceed the stock (`StockCheckedPerItem`).

## Model

| member | source | states |
|---|---|---|
| `Lookup.FindIndex` | app.js:169 | the result is -1 exactly when no record has the id; otherwise it is the index of the first record with that id |
| `Lookup.Find` | app.js:87 | not-found exactly when no record has the id; otherwise the first record with that id |
| `Lookup.MaxKey` | app.js:143 | the result is an id of the non-empty collection and no id is larger |
| `Lookup.NextId` | app.js:143 | the new id exceeds every existing id; it is 1 for an empty collection and otherwise one more than an existing id |
| `Lookup.FindIndexUnique` | app.js:169 | with unique ids, the found index is the only record with that id |
| `Lookup.AppendNextIdKeepsUnique` | app.js:143-151 | appending a record with the next id keeps ids unique |
| `ProductSearch.ToLowerIdempotent` | app.js:239-241 | lowercasing an already lowercased string changes nothing |
| `ProductSearch.IncludesIff` | app.js:239 | `includes` holds exactly when the query occurs at some position of the string |
| `ProductSearch.IncludesEmpty` | app.js:239 | the empty query is included in every string |
| `ProductSearch.MatchesIff` | app.js:238-242 | a product matches exactly when the lowercased query occurs in its lowercased name, description or category |
| `ProductSearch.Filter` | app.js:238-242 | each product occurs in the result as often as in the collection if it matches, and not at all otherwise |
| `ProductSearch.FilterAppend` | app.js:238-242 | filtering distributes over concatenation, so kept products stay in collection order |
| `ProductSearch.Search` | app.js:230-242 | no query or an empty one returns the collection unchanged; otherwise the result is `Filter`'s, which keeps exactly the matching products in collection order |
| `ProductSearch.FilterEmptyQuery` | app.js:230-242 | filtering by the empty query would also return the whole collection |
| `ProductSearch.SearchIgnoresQueryCase` | app.js:239-241 | a query and its lowercase form give the same result |
| `Cart.AddItem` | app.js:261-268 | when the product has an entry, the first one (as `find` returns it) gets its quantity increased, the length is kept and every other entry is unchanged; otherwise `{productId, quantity}` is appended |
| `Cart.AddItemKeepsDistinct` | app.js:261-268 | adding never makes a product appear twice in a cart |
| `Cart.AddItemTwice` | app.js:261-263 | two adds of one product equal one add of the summed quantity |
| `Cart.AddItemQuantity` | app.js:261-268 | the product's total quantity in the cart rises by exactly the amount added; other products' totals are unchanged |
| `Orders.CheckItem` | app.js:297-317 | an item passes exactly when the first product with its id exists and has at least the requested stock, and its snapshot is that product's id, name and price with the requested quantity; a missing product is a 400 naming the id, short stock a 400 naming that product |
| `Orders.CheckoutPrefixErr` | app.js:296-309 | once a prefix of the request is rejected, the whole request is rejected with the same error |
| `Orders.CheckoutOkIff` | app.js:296-309 | the order is accepted exactly when every requested item passes its check |
| `Orders.CheckoutLines` | app.js:296-318 | an accepted order has one snapshot per requested item, in request order, each the one `CheckItem` gives for that item, and its total is the sum of price times quantity over the snapshots |
| `Orders.CheckoutSnapshots` | app.js:311-317 | each snapshot of an accepted order is the id, name and price of the product `find` returns for its item, with the requested quantity |
| `Orders.CheckoutFirstError` | app.js:298-308 | a rejected order reports the error of the first item that fails, with every earlier item passing |
| `Orders.StockCheckedPerItem` | app.js:304 | two requests for the single unit in stock are both accepted |
| `Orders.OutOfStockRejects` | app.js:304-309 | in any catalogue, an item asking for more than the stock of the first product with its id, after items that pass, rejects the whole order as out of stock naming that product |
| `Orders.PriceOrder` | app.js:293-318 | the loop with its early returns computes exactly `Checkout` |
| `Storefront.Overlay` | app.js:178-182 | the updated record's id is the requested id |
| `Storefront.OverlayEmptyPatch` | app.js:178-182 | a patch with no fields leaves the stored record as it was, apart from the pinned id |
| `Storefront.OverlayFullPatch` | app.js:178-182 | a patch with every field present gives the patch's values whatever the stored record was, with the pinned id |
| `Storefront.OverlayIgnoresBodyId` | app.js:181 | an id in the request body has no effect on the updated record |
| `Storefront.OverlayIdempotent` | app.js:178-182 | applying the same update twice gives the same record as once |
| `Storefront.Store.constructor` | app.js:253 | the collections are as loaded and the cart map is empty |
| `Storefront.Store.GetProduct` | app.js:85-100 | 404 exactly when no product has the id; otherwise 200 with the first product with that id |
| `Storefront.Store.GetUser` | app.js:112-127 | 404 exactly when no user has the id; otherwise 200 with the first user with that id |
| `Storefront.Store.SearchProducts` | app.js:226-250 | the result is `Search` over the stored products: all of them for no or an empty query, otherwise the matching ones |
| `Storefront.Store.CreateProduct` | app.js:140-165 | on a successful write the product with the next id is appended and returned with 201, so earlier records are unchanged; on a failed write a 500 and no change; product ids stay unique |
| `Storefront.Store.UpdateProduct` | app.js:167-196 | 404 and no change exactly when no product has the id; otherwise only the first match is replaced by the overlay and its id is the requested one; a failed write changes nothing; product ids stay unique |
| `Storefront.Store.DeleteProduct` | app.js:198-223 | 404 and no change exactly when no product has the id; otherwise the first match is returned and spliced out, the rest keep their order and the length drops by one; product ids stay unique |
| `Storefront.Store.GetCart` | app.js:278-284 | the user's stored cart, or the empty list when the user has none |
| `Storefront.Store.AddToCart` | app.js:255-276 | only the user's cart changes, becoming `AddItem` of the old cart (empty if absent) with the quantity defaulting to 1; a cart free of repeated products stays so |
| `Storefront.Store.CreateOrder` | app.js:287-343 | a rejected request stores nothing and returns its 400 error; otherwise the order with the next id, the priced snapshots and total and status `pending` is appended and returned with 201; products and carts never change, so stock is not decremented; order ids stay unique |

## Left out

- File reading and writing and JSON parsing (app.js:18-35). A collection is a field of `Store`, and a write's success is the `writeOk` parameter.
- Partial writes: the model assumes a failed write leaves the stored file intact. `fs.writeFileSync` (app.js:30) truncates the file when it opens it, so a write that fails after the open, on a full disk for example, leaves a partial file. The next `readJSONFile` (app.js:21-23) then fails to parse it and sees an empty collection.
- Read failures: every read is assumed to return the stored collection. When the service fails to read a file it treats it as an empty collection. A failed read of a non-empty products.json followed by a create (app.js:141-151) therefore writes back a single product with id 1 over the stored data. The model cannot show this data loss. The same holds for orders.json at app.js:289-329.
- HTTP, Express setup, static files, view rendering and the server start-up and logging (app.js:1-15, app.js:42-73, app.js:346-350). The page at `/product/:id` does the same lookup as `GetProduct`.
- The list-all routes (app.js:76-83, app.js:103-110, app.js:130-137). They return a loaded collection unchanged together with its length, and there is nothing to state about them beyond that.
- `parseInt`/`parseFloat` coercion of request text (app.js:145-148, app.js:261-268, app.js:297, app.js:322). Inputs are typed, so the NaN cases are not modelled: a non-numeric id that never matches, or a NaN quantity.
- An update body whose fields are not product fields, or have other types. The patch covers the five product fields plus an ignored `id`.
- Floating-point prices and the `toFixed(2)` rounding of the total (app.js:311, app.js:324). Prices are integer cents, so the total is exact.
- The order's `createdAt` timestamp (app.js:326): it comes from the wall clock.
- `ProductSearch.ToLower`: only ASCII `A`-`Z` are lowercased. JavaScript's `toLowerCase` also folds other Unicode letters.
- `Math.max(...ids)` over a very large collection, which can exceed JavaScript's argument limit, and user ids such as `constructor` that collide with inherited properties of the plain object used for carts.
- Concurrent requests and lost updates between read-modify-write cycles: the model runs one request at a time.
- `Lookup.NextId` and `Cart.AddItem` compute on unbounded integers. In the source, ids, stock and quantities are JavaScript numbers, which hold every integer exactly only up to 2^53. Past that, `Math.max(...ids) + 1` (app.js:143, app.js:321) can return the largest id again, and `existingItem.quantity += parseInt(quantity)` (app.js:263) rounds.
- `Lookup.NextId`: that the new id exceeds every existing id, and therefore `Storefront.Store.CreateProduct` and `Storefront.Store.CreateOrder` keeping ids unique, holds for the source only while the largest id is below 2^53.
- `Cart.AddItem`: the exact accumulation stated by `Cart.AddItemTwice` and `Cart.AddItemQuantity` holds for the source only while the quantities and their sums do not exceed 2^53.
