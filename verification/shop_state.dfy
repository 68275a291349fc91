/**
 The state every handler works on, the errors they answer with, and the
 shape of a handler's outcome.
 */
module ShopState {
  import opened Products
  import opened CartStore
  import opened CartView

  /** The two tables: the catalog, which no handler writes, and the single shared cart. */
  datatype Store = Store(catalog: Catalog, cart: Cart)

  /** The error responses the handlers send, one per message, with the HTTP status each is sent with. */
  datatype Error =
    | ProductIdRequired      // 400 'Product ID is required'
    | ProductNotFound        // 404 'Product not found'
    | QuantityNotPositive    // 400 'Quantity must be greater than 0'
    | CartItemNotFound       // 404 'Cart item not found'
    | CustomerInfoRequired   // 400 'Customer name and email are required'
    | CartEmpty              // 400 'Cart is empty'

  datatype Result<+T> = Ok(value: T) | Err(error: Error)

  /** A handler's outcome: the store after it ran, and the response it sent. */
  datatype Step<+T> = Step(store: Store, reply: Result<T>)

  /**
   The cart invariant: the primary key holds, no product has two rows, and every
   row names a catalog product.
   */
  ghost predicate Valid(s: Store)
  {
    && UniqueIds(s.cart)
    && UniqueProducts(s.cart)
    && References(s.cart, s.catalog)
  }
}
