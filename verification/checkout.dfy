/** POST /api/checkout: validate the customer, snapshot the cart, build a receipt, empty the cart. */
module CheckoutService {
  import opened Wrappers
  import opened Products
  import opened CartStore
  import opened CartView
  import opened ShopState
  import opened OrderIds

  /** The request's `customerInfo`; `address` is optional and never checked. */
  datatype CustomerInfo = CustomerInfo(name: Option<string>, email: Option<string>, address: Option<string>)

  /** A row of the checkout query, which selects everything the cart query does except the image. */
  datatype ReceiptLine = ReceiptLine(
    id: string, productId: string, quantity: int, name: string, priceCents: nat, itemTotal: int)

  datatype Receipt = Receipt(
    orderId: string, customerInfo: CustomerInfo, items: seq<ReceiptLine>,
    totalCents: int, timestamp: string, status: string)

  /** `customerInfo` is present and its name and email are non-empty strings. */
  predicate ValidCustomer(info: Option<CustomerInfo>)
  {
    info.Some? && Present(info.value.name) && Present(info.value.email)
  }

  function Snapshot(lines: seq<CartLine>): seq<ReceiptLine>
  {
    seq(|lines|, k requires 0 <= k < |lines| =>
      var l := lines[k];
      ReceiptLine(l.id, l.productId, l.quantity, l.name, l.priceCents, l.itemTotal))
  }

  /**
   POST /api/checkout. `now` is the millisecond clock and `timestamp` its ISO-8601
   rendering; both are read only when the checkout succeeds.
   */
  function Checkout(s: Store, info: Option<CustomerInfo>, now: nat, timestamp: string): (r: Step<Receipt>)
    ensures !ValidCustomer(info) ==> r == Step(s, Err(CustomerInfoRequired))
    ensures ValidCustomer(info) && (forall i | 0 <= i < |s.cart| :: s.cart[i].productId !in s.catalog) ==>
      r == Step(s, Err(CartEmpty))
    ensures r.reply.Ok? <==>
      ValidCustomer(info) && exists i | 0 <= i < |s.cart| :: s.cart[i].productId in s.catalog
    ensures r.reply.Ok? ==>
      var receipt := r.reply.value;
      && r.store == Store(s.catalog, [])
      && receipt.status == "confirmed"
      && receipt.orderId == OrderId(now)
      && receipt.timestamp == timestamp
      && receipt.customerInfo == info.value
      && receipt.totalCents == CartValue(s.catalog, s.cart)
      && (forall k | 0 <= k < |receipt.items| ::
            var l := receipt.items[k];
            && l.productId in s.catalog
            && l.name == s.catalog[l.productId].name
            && l.priceCents == s.catalog[l.productId].priceCents
            && l.itemTotal == l.quantity * l.priceCents)
      && (References(s.cart, s.catalog) ==>
            && |receipt.items| == |s.cart|
            && forall i | 0 <= i < |s.cart| ::
                 && receipt.items[i].id == s.cart[i].id
                 && receipt.items[i].productId == s.cart[i].productId
                 && receipt.items[i].quantity == s.cart[i].quantity)
  {
    if !ValidCustomer(info) then Step(s, Err(CustomerInfoRequired))
    else
      var snapshot := ViewOf(s.catalog, s.cart);
      if snapshot.items == [] then Step(s, Err(CartEmpty))
      else
        var receipt := Receipt(OrderId(now), info.value, Snapshot(snapshot.items),
                               snapshot.totalCents, timestamp, "confirmed");
        Step(s.(cart := []), Ok(receipt))
  }

  /** On an empty cart checkout fails, with the customer error first, and the cart stays empty. */
  lemma CheckoutEmptyCart(s: Store, info: Option<CustomerInfo>, now: nat, timestamp: string)
    requires s.cart == []
    ensures var r := Checkout(s, info, now, timestamp);
      && r.store == s
      && r.reply == Err(if ValidCustomer(info) then CartEmpty else CustomerInfoRequired)
  {
  }

  /**
   In a valid store checkout succeeds exactly for a valid customer and a non-empty cart;
   the receipt's total is the total GET /api/cart reported just before, and afterwards
   GET /api/cart reports an empty cart.
   */
  lemma CheckoutOfValidStore(s: Store, info: Option<CustomerInfo>, now: nat, timestamp: string)
    requires Valid(s)
    ensures var r := Checkout(s, info, now, timestamp);
      && (r.reply.Ok? <==> ValidCustomer(info) && s.cart != [])
      && (r.reply.Ok? ==>
            && r.reply.value.totalCents == ViewOf(s.catalog, s.cart).totalCents
            && ViewOf(r.store.catalog, r.store.cart) == View([], 0))
      && Valid(r.store)
  {
    if s.cart != [] {
      assert s.cart[0].productId in s.catalog;
    }
  }

  /** Checkouts at different clock readings produce receipts with different order ids. */
  lemma DistinctOrderIds(s1: Store, info1: Option<CustomerInfo>, now1: nat, ts1: string,
                         s2: Store, info2: Option<CustomerInfo>, now2: nat, ts2: string)
    requires Checkout(s1, info1, now1, ts1).reply.Ok? && Checkout(s2, info2, now2, ts2).reply.Ok?
    requires now1 != now2
    ensures Checkout(s1, info1, now1, ts1).reply.value.orderId != Checkout(s2, info2, now2, ts2).reply.value.orderId
  {
    OrderIdInjective(now1, now2);
  }
}
