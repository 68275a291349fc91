/**
 A run of requests against the single shared cart, one after another, and the
 properties every such run keeps.
 */
module Session {
  import opened Wrappers
  import opened Products
  import opened CartStore
  import opened CartView
  import opened ShopState
  import opened CartService
  import opened CheckoutService

  /** One request to the cart API, with the values the server would draw from uuid and the clock. */
  datatype Request =
    | AddItem(productId: Option<string>, quantity: Option<int>, freshId: string)
    | UpdateItem(id: string, newQuantity: int)
    | RemoveItem(id: string)
    | ViewCart
    | PlaceOrder(info: Option<CustomerInfo>, now: nat, timestamp: string)

  /** The uuid drawn for an add is not already a row id. */
  predicate Enabled(s: Store, req: Request)
  {
    req.AddItem? ==> req.freshId !in Ids(s.cart)
  }

  /** The store after one request; GET /api/cart reads and changes nothing. */
  function Apply(s: Store, req: Request): Store
    requires Enabled(s, req)
  {
    match req
    case AddItem(productId, quantity, freshId) => Add(s, productId, quantity, freshId).store
    case UpdateItem(id, newQuantity) => UpdateQuantity(s, id, newQuantity).store
    case RemoveItem(id) => Remove(s, id).store
    case ViewCart => s
    case PlaceOrder(info, now, timestamp) => Checkout(s, info, now, timestamp).store
  }

  /** Every uuid drawn along the run is fresh when it is drawn. */
  ghost predicate Admissible(s: Store, reqs: seq<Request>)
    decreases |reqs|
  {
    reqs == [] || (Enabled(s, reqs[0]) && Admissible(Apply(s, reqs[0]), reqs[1..]))
  }

  function Run(s: Store, reqs: seq<Request>): Store
    requires Admissible(s, reqs)
    decreases |reqs|
  {
    if reqs == [] then s else Run(Apply(s, reqs[0]), reqs[1..])
  }

  lemma ApplyPreservesValid(s: Store, req: Request)
    requires Valid(s) && Enabled(s, req)
    ensures Valid(Apply(s, req))
    ensures Apply(s, req).catalog == s.catalog
  {
    match req
    case AddItem(productId, quantity, freshId) => AddPreservesValid(s, productId, quantity, freshId);
    case UpdateItem(id, newQuantity) => UpdatePreservesValid(s, id, newQuantity);
    case RemoveItem(id) => RemovePreservesValid(s, id);
    case ViewCart =>
    case PlaceOrder(info, now, timestamp) =>
  }

  /** Any run of requests keeps the cart invariant and never touches the catalog. */
  lemma {:induction false} RunPreservesValid(s: Store, reqs: seq<Request>)
    requires Valid(s) && Admissible(s, reqs)
    ensures Valid(Run(s, reqs))
    ensures Run(s, reqs).catalog == s.catalog
    decreases |reqs|
  {
    if reqs != [] {
      ApplyPreservesValid(s, reqs[0]);
      RunPreservesValid(Apply(s, reqs[0]), reqs[1..]);
    }
  }

  /**
   Starting from an empty cart, every run leaves at most one row per product, and
   the cart view shows one line for every row.
   */
  lemma OneRowPerProduct(catalog: Catalog, reqs: seq<Request>, productId: string)
    requires Admissible(Store(catalog, []), reqs)
    ensures var s := Run(Store(catalog, []), reqs);
      && UniqueProducts(s.cart)
      && ProductCount(s.cart, productId) <= 1
      && |ViewOf(s.catalog, s.cart).items| == |s.cart|
  {
    RunPreservesValid(Store(catalog, []), reqs);
    UniqueProductsCount(Run(Store(catalog, []), reqs).cart, productId);
  }

  /** Add product 1 twice (2 then 1), then check out: one row of quantity 3, a receipt for three, an empty cart. */
  lemma AddTwiceThenCheckout()
    ensures
      var s0 := Store(Seeded, []);
      var s1 := Add(s0, Some("1"), Some(2), "item-a").store;
      var s2 := Add(s1, Some("1"), Some(1), "item-b").store;
      var v := ViewOf(s2.catalog, s2.cart);
      var r := Checkout(s2, Some(CustomerInfo(Some("Ada"), Some("ada@example.com"), None)), 0, "1970-01-01T00:00:00.000Z");
      && |v.items| == 1 && v.items[0].quantity == 3
      && r.reply.Ok? && r.reply.value.totalCents == 3 * Seeded["1"].priceCents
      && ViewOf(r.store.catalog, r.store.cart) == View([], 0)
  {
    var s0 := Store(Seeded, []);
    var s1 := Add(s0, Some("1"), Some(2), "item-a").store;
    assert s1.cart == [CartItem("item-a", "1", 2)];
    var s2 := Add(s1, Some("1"), Some(1), "item-b").store;
    AddToExistingRow(s1, 0, Some(1), "item-b");
    assert s2.cart == [CartItem("item-a", "1", 3)];
    assert s2.catalog == Seeded;
    assert [CartItem("item-a", "1", 3)][1..] == [];
    assert CartValue(Seeded, [CartItem("item-a", "1", 3)]) == 3 * Seeded["1"].priceCents;
  }

  /** Add product 2 once, set its quantity to 5, then remove it: the total follows, and the cart ends empty. */
  lemma AddUpdateRemove()
    ensures
      var s0 := Store(Seeded, []);
      var s1 := Add(s0, Some("2"), None, "item-a").store;
      var s2 := UpdateQuantity(s1, "item-a", 5).store;
      var s3 := Remove(s2, "item-a").store;
      && ViewOf(s2.catalog, s2.cart).totalCents == 5 * Seeded["2"].priceCents
      && ViewOf(s3.catalog, s3.cart) == View([], 0)
  {
    var s0 := Store(Seeded, []);
    var s1 := Add(s0, Some("2"), None, "item-a").store;
    assert s1.cart == [CartItem("item-a", "2", 1)];
    var s2 := UpdateQuantity(s1, "item-a", 5).store;
    UpdateOneRow(s1, 0, 5);
    assert s2.cart == [CartItem("item-a", "2", 5)];
    assert s2.catalog == Seeded;
    assert [CartItem("item-a", "2", 5)][1..] == [];
    assert CartValue(Seeded, [CartItem("item-a", "2", 5)]) == 5 * Seeded["2"].priceCents;
    RemoveOneRow(s2, 0);
    var s3 := Remove(s2, "item-a").store;
    assert s3.cart == [];
  }
}
