/** The records the store keeps, the requests its handlers accept and the
    replies they give. Prices and totals are whole cents. */
module Records {

  datatype Option<T> = None | Some(value: T) {
    function GetOr(default: T): T {
      if Some? then value else default
    }
  }

  /** A catalogue entry of products.json. */
  datatype Product = Product(
    id: int,
    name: string,
    price: int,
    category: string,
    description: string,
    stock: int)

  /** The typed body of a create-product request. */
  datatype ProductInput = ProductInput(
    name: string,
    price: int,
    category: string,
    description: string,
    stock: int)

  /** The typed body of an update-product request: a field that is present
      replaces the stored one; `id` may be present but is never applied. */
  datatype ProductPatch = ProductPatch(
    id: Option<int>,
    name: Option<string>,
    price: Option<int>,
    category: Option<string>,
    description: Option<string>,
    stock: Option<int>)

  /** An entry of users.json: an id and free-form profile fields. */
  datatype User = User(id: int, profile: map<string, string>)

  /** `{productId, quantity}`: a cart entry and a requested order item. */
  datatype LineItem = LineItem(productId: int, quantity: int)

  /** The snapshot of a product that an order keeps. */
  datatype OrderLine = OrderLine(productId: int, name: string, price: int, quantity: int)

  /** An entry of orders.json. */
  datatype Order = Order(
    id: int,
    userId: int,
    products: seq<OrderLine>,
    total: int,
    status: string)

  const Pending: string := "pending"

  function ProductId(p: Product): int { p.id }
  function UserId(u: User): int { u.id }
  function OrderId(o: Order): int { o.id }
  function ItemProductId(item: LineItem): int { item.productId }

  /** The ways a handler fails, each with the HTTP status it answers. */
  datatype Error =
    | NotFound
    | UnknownProduct(productId: int)
    | OutOfStock(productName: string)
    | WriteFailed
  {
    function Status(): int {
      match this
      case NotFound => 404
      case UnknownProduct(_) => 400
      case OutOfStock(_) => 400
      case WriteFailed => 500
    }
  }

  datatype Result<T> = Ok(value: T) | Err(error: Error)

  /** What a handler sends back: a success status with its data, or an error. */
  datatype Reply<T> = Success(status: int, data: T) | Failure(error: Error) {
    function Status(): int {
      if Success? then status else error.Status()
    }
  }
}
