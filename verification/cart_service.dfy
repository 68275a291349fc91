/** The cart handlers: POST /api/cart, PUT /api/cart/:id and DELETE /api/cart/:id. */
module CartService {
  import opened Wrappers
  import opened Products
  import opened CartStore
  import opened CartView
  import opened ShopState

  /** The body of a successful add: the affected row, and whether it was created (201) or incremented (200). */
  datatype AddReply = AddReply(cartItemId: string, created: bool)

  /** `quantity` defaults to 1 only when the field is absent; it is not otherwise checked. */
  function QuantityOrDefault(quantity: Option<int>): int
  {
    match quantity
    case None => 1
    case Some(q) => q
  }

  /**
   POST /api/cart. `freshId` is the uuid the handler would generate; it is only used
   when the product has no row yet.
   */
  function Add(s: Store, productId: Option<string>, quantity: Option<int>, freshId: string): (r: Step<AddReply>)
    requires freshId !in Ids(s.cart)
    ensures r.store.catalog == s.catalog
    ensures !Present(productId) ==> r == Step(s, Err(ProductIdRequired))
    ensures Present(productId) && productId.value !in s.catalog ==> r == Step(s, Err(ProductNotFound))
    ensures r.reply.Ok? <==> Present(productId) && productId.value in s.catalog
    ensures r.reply.Ok? && r.reply.value.created ==>
      && (forall j | 0 <= j < |s.cart| :: s.cart[j].productId != productId.value)
      && r.reply.value.cartItemId == freshId
      && r.store.cart == s.cart + [CartItem(freshId, productId.value, QuantityOrDefault(quantity))]
    ensures r.reply.Ok? && !r.reply.value.created ==>
      exists i | 0 <= i < |s.cart| ::
        && s.cart[i].productId == productId.value
        && (forall j | 0 <= j < i :: s.cart[j].productId != productId.value)
        && r.reply.value.cartItemId == s.cart[i].id
        && r.store.cart == SetQuantityWhereProduct(s.cart, productId.value, s.cart[i].quantity + QuantityOrDefault(quantity))
  {
    if !Present(productId) then Step(s, Err(ProductIdRequired))
    else if productId.value !in s.catalog then Step(s, Err(ProductNotFound))
    else
      var pid := productId.value;
      var q := QuantityOrDefault(quantity);
      match FindByProduct(s.cart, pid)
      case Some(i) =>
        var existing := s.cart[i];
        Step(s.(cart := SetQuantityWhereProduct(s.cart, pid, existing.quantity + q)),
             Ok(AddReply(existing.id, false)))
      case None =>
        Step(s.(cart := s.cart + [CartItem(freshId, pid, q)]), Ok(AddReply(freshId, true)))
  }

  /** PUT /api/cart/:id. No row with the id means the UPDATE changed nothing: not found. */
  function UpdateQuantity(s: Store, id: string, quantity: int): (r: Step<()>)
    ensures r.store.catalog == s.catalog
    ensures quantity <= 0 ==> r == Step(s, Err(QuantityNotPositive))
    ensures quantity > 0 && id !in Ids(s.cart) ==> r == Step(s, Err(CartItemNotFound))
    ensures quantity > 0 && id in Ids(s.cart) ==>
      && r.reply.Ok?
      && |r.store.cart| == |s.cart|
      && forall j | 0 <= j < |s.cart| ::
           r.store.cart[j] == if s.cart[j].id == id then s.cart[j].(quantity := quantity) else s.cart[j]
  {
    if quantity <= 0 then Step(s, Err(QuantityNotPositive))
    else if id !in Ids(s.cart) then Step(s, Err(CartItemNotFound))
    else Step(s.(cart := SetQuantityWhereId(s.cart, id, quantity)), Ok(()))
  }

  /** DELETE /api/cart/:id. No row with the id means the DELETE changed nothing: not found. */
  function Remove(s: Store, id: string): (r: Step<()>)
    ensures r.store.catalog == s.catalog
    ensures id !in Ids(s.cart) ==> r == Step(s, Err(CartItemNotFound))
    ensures id in Ids(s.cart) ==>
      && r.reply.Ok?
      && id !in Ids(r.store.cart)
      && |r.store.cart| < |s.cart|
      && forall x :: x in r.store.cart <==> x in s.cart && x.id != id
  {
    if id !in Ids(s.cart) then Step(s, Err(CartItemNotFound))
    else
      var c := DeleteWhereId(s.cart, id);
      assert id !in Ids(c) by {
        forall j | 0 <= j < |c| ensures c[j].id != id {
          assert c[j] in c;
        }
      }
      assert |c| < |s.cart| by {
        var i :| 0 <= i < |s.cart| && s.cart[i].id == id;
        DeleteShrinks(s.cart, i);
      }
      Step(s.(cart := c), Ok(()))
  }

  lemma {:induction false} DeleteShrinks(c: Cart, i: nat)
    requires i < |c|
    ensures |DeleteWhereId(c, c[i].id)| < |c|
  {
    if i > 0 && c[0].id != c[i].id {
      assert c[1..][i - 1] == c[i];
      DeleteShrinks(c[1..], i - 1);
    }
  }

  // ----- Add -----

  /**
   With one row per product, adding a product that has row `i` increments that row,
   answers with its id, and leaves every other row as it was.
   */
  lemma AddToExistingRow(s: Store, i: nat, quantity: Option<int>, freshId: string)
    requires freshId !in Ids(s.cart) && UniqueProducts(s.cart)
    requires i < |s.cart| && Present(Some(s.cart[i].productId)) && s.cart[i].productId in s.catalog
    ensures var r := Add(s, Some(s.cart[i].productId), quantity, freshId);
      && r.reply == Ok(AddReply(s.cart[i].id, false))
      && r.store.cart == s.cart[i := s.cart[i].(quantity := s.cart[i].quantity + QuantityOrDefault(quantity))]
  {
    var q := QuantityOrDefault(quantity);
    assert FindByProduct(s.cart, s.cart[i].productId) == Some(i);
    SetQuantityWhereProductUnique(s.cart, i, s.cart[i].quantity + q);
  }

  /** Adding a product that has no row appends one row with the fresh id and the requested quantity. */
  lemma AddNewRow(s: Store, productId: string, quantity: Option<int>, freshId: string)
    requires freshId !in Ids(s.cart) && productId != "" && productId in s.catalog
    requires forall j | 0 <= j < |s.cart| :: s.cart[j].productId != productId
    ensures var r := Add(s, Some(productId), quantity, freshId);
      && r.reply == Ok(AddReply(freshId, true))
      && r.store.cart == s.cart + [CartItem(freshId, productId, QuantityOrDefault(quantity))]
  {
    assert FindByProduct(s.cart, productId) == None;
  }

  /** A successful add leaves exactly one row for the product, holding the old quantity plus the added one. */
  lemma AddTalliesOwn(s: Store, productId: string, quantity: Option<int>, freshId: string)
    requires freshId !in Ids(s.cart) && Valid(s)
    requires productId != "" && productId in s.catalog
    ensures var c' := Add(s, Some(productId), quantity, freshId).store.cart;
      && ProductCount(c', productId) == 1
      && ProductQuantity(c', productId) == ProductQuantity(s.cart, productId) + QuantityOrDefault(quantity)
  {
    var q := QuantityOrDefault(quantity);
    var c := s.cart;
    match FindByProduct(c, productId)
    case None =>
      AddNewRow(s, productId, quantity, freshId);
      TalliesOfAppend(c, CartItem(freshId, productId, q), productId);
    case Some(i) =>
      assert c[i].productId == productId;
      AddToExistingRow(s, i, quantity, freshId);
      var c' := c[i := c[i].(quantity := c[i].quantity + q)];
      assert Add(s, Some(productId), quantity, freshId).store.cart == c';
      TalliesOfIncrement(c, i, q);
  }

  /** A successful add leaves every other product's row count and quantity as they were. */
  lemma AddTalliesOther(s: Store, productId: string, quantity: Option<int>, freshId: string, other: string)
    requires freshId !in Ids(s.cart) && Valid(s)
    requires productId != "" && productId in s.catalog && other != productId
    ensures var c' := Add(s, Some(productId), quantity, freshId).store.cart;
      && ProductCount(c', other) == ProductCount(s.cart, other)
      && ProductQuantity(c', other) == ProductQuantity(s.cart, other)
  {
    var q := QuantityOrDefault(quantity);
    var c := s.cart;
    match FindByProduct(c, productId)
    case None =>
      AddNewRow(s, productId, quantity, freshId);
      TalliesOfAppend(c, CartItem(freshId, productId, q), other);
    case Some(i) =>
      assert c[i].productId == productId;
      AddToExistingRow(s, i, quantity, freshId);
      var c' := c[i := c[i].(quantity := c[i].quantity + q)];
      assert Add(s, Some(productId), quantity, freshId).store.cart == c';
      TalliesOfReplace(c, i, c'[i], other);
  }

  lemma TalliesOfIncrement(c: Cart, i: nat, q: int)
    requires UniqueProducts(c) && i < |c|
    ensures var c' := c[i := c[i].(quantity := c[i].quantity + q)];
      && ProductCount(c', c[i].productId) == 1
      && ProductQuantity(c', c[i].productId) == ProductQuantity(c, c[i].productId) + q
  {
    var c' := c[i := c[i].(quantity := c[i].quantity + q)];
    ProductTalliesOfSoleRow(c, i);
    assert forall j | 0 <= j < |c'| && j != i :: c'[j].productId != c'[i].productId;
    ProductTalliesOfSoleRow(c', i);
  }

  lemma TalliesOfAppend(c: Cart, x: CartItem, p: string)
    ensures ProductCount(c + [x], p) == ProductCount(c, p) + (if x.productId == p then 1 else 0)
    ensures ProductQuantity(c + [x], p) == ProductQuantity(c, p) + (if x.productId == p then x.quantity else 0)
  {
    ProductTalliesConcat(c, [x], p);
    assert [x][1..] == [];
  }

  lemma TalliesOfReplace(c: Cart, i: nat, x: CartItem, other: string)
    requires i < |c| && x.productId == c[i].productId && c[i].productId != other
    ensures ProductCount(c[i := x], other) == ProductCount(c, other)
    ensures ProductQuantity(c[i := x], other) == ProductQuantity(c, other)
  {
    var d := c[i := x];
    assert c == c[..i] + [c[i]] + c[i+1..];
    assert d == c[..i] + [x] + c[i+1..];
    ProductTalliesConcat(c[..i] + [c[i]], c[i+1..], other);
    ProductTalliesConcat(c[..i], [c[i]], other);
    ProductTalliesConcat(c[..i] + [x], c[i+1..], other);
    ProductTalliesConcat(c[..i], [x], other);
    assert [x][1..] == [] && [c[i]][1..] == [];
  }

  /** Adding the same product twice leaves one row whose quantity grew by both amounts, under one id. */
  lemma AddTwice(s: Store, productId: string, q1: Option<int>, id1: string, q2: Option<int>, id2: string)
    requires Valid(s) && productId != "" && productId in s.catalog
    requires id1 !in Ids(s.cart)
    requires id2 !in Ids(Add(s, Some(productId), q1, id1).store.cart)
    ensures var r1 := Add(s, Some(productId), q1, id1);
      var r2 := Add(r1.store, Some(productId), q2, id2);
      && r1.reply.Ok? && r2.reply.Ok?
      && !r2.reply.value.created
      && r2.reply.value.cartItemId == r1.reply.value.cartItemId
      && ProductCount(r2.store.cart, productId) == 1
      && ProductQuantity(r2.store.cart, productId)
         == ProductQuantity(s.cart, productId) + QuantityOrDefault(q1) + QuantityOrDefault(q2)
  {
    var r1 := Add(s, Some(productId), q1, id1);
    var c1 := r1.store.cart;
    AddTalliesOwn(s, productId, q1, id1);
    AddPreservesValid(s, Some(productId), q1, id1);
    AddTalliesOwn(r1.store, productId, q2, id2);
    var i: nat;
    match FindByProduct(s.cart, productId)
    case None =>
      i := |s.cart|;
      assert c1[i] == CartItem(id1, productId, QuantityOrDefault(q1));
    case Some(k) =>
      AddToExistingRow(s, k, q1, id1);
      i := k;
    assert c1[i].productId == productId && c1[i].id == r1.reply.value.cartItemId;
    AddToExistingRow(r1.store, i, q2, id2);
  }

  /** A successful add raises the cart's value by the added quantity at the product's price. */
  lemma AddValue(s: Store, productId: string, quantity: Option<int>, freshId: string)
    requires freshId !in Ids(s.cart) && Valid(s)
    requires Add(s, Some(productId), quantity, freshId).reply.Ok?
    ensures CartValue(s.catalog, Add(s, Some(productId), quantity, freshId).store.cart)
         == CartValue(s.catalog, s.cart) + QuantityOrDefault(quantity) * s.catalog[productId].priceCents
  {
    var q := QuantityOrDefault(quantity);
    var price := s.catalog[productId].priceCents;
    match FindByProduct(s.cart, productId)
    case None =>
      CartValueAppend(s.catalog, s.cart, CartItem(freshId, productId, q));
    case Some(i) =>
      AddToExistingRow(s, i, quantity, freshId);
      CartValueReplace(s.catalog, s.cart, i, s.cart[i].(quantity := s.cart[i].quantity + q));
      assert (s.cart[i].quantity + q) * price == s.cart[i].quantity * price + q * price;
  }

  lemma AddPreservesValid(s: Store, productId: Option<string>, quantity: Option<int>, freshId: string)
    requires freshId !in Ids(s.cart) && Valid(s)
    ensures Valid(Add(s, productId, quantity, freshId).store)
  {
    if Present(productId) && productId.value in s.catalog {
      match FindByProduct(s.cart, productId.value)
      case None =>
      case Some(i) =>
        AddToExistingRow(s, i, quantity, freshId);
    }
  }

  // ----- UpdateQuantity -----

  /** With unique ids, a successful update of row `i` sets exactly that row's quantity. */
  lemma UpdateOneRow(s: Store, i: nat, quantity: int)
    requires UniqueIds(s.cart) && i < |s.cart| && quantity > 0
    ensures var r := UpdateQuantity(s, s.cart[i].id, quantity);
      r.reply.Ok? && r.store.cart == s.cart[i := s.cart[i].(quantity := quantity)]
  {
    SetQuantityWhereIdUnique(s.cart, i, quantity);
  }

  /** A successful update of row `i` changes the cart's value by the change in quantity at the row's price. */
  lemma UpdateValue(s: Store, i: nat, quantity: int)
    requires Valid(s) && i < |s.cart| && quantity > 0
    ensures CartValue(s.catalog, UpdateQuantity(s, s.cart[i].id, quantity).store.cart)
         == CartValue(s.catalog, s.cart) + (quantity - s.cart[i].quantity) * s.catalog[s.cart[i].productId].priceCents
  {
    UpdateOneRow(s, i, quantity);
    var price := s.catalog[s.cart[i].productId].priceCents;
    CartValueReplace(s.catalog, s.cart, i, s.cart[i].(quantity := quantity));
    assert quantity * price - s.cart[i].quantity * price == (quantity - s.cart[i].quantity) * price;
  }

  lemma UpdatePreservesValid(s: Store, id: string, quantity: int)
    requires Valid(s)
    ensures Valid(UpdateQuantity(s, id, quantity).store)
  {
  }

  // ----- Remove -----

  /** With unique ids, removing row `i`'s id deletes exactly that row and keeps the others in order. */
  lemma RemoveOneRow(s: Store, i: nat)
    requires UniqueIds(s.cart) && i < |s.cart|
    ensures var r := Remove(s, s.cart[i].id);
      r.reply.Ok? && r.store.cart == s.cart[..i] + s.cart[i+1..]
  {
    DeleteWhereIdUnique(s.cart, i);
  }

  /** Removing the same id a second time fails with not-found and changes nothing. */
  lemma RemoveTwice(s: Store, id: string)
    requires id in Ids(s.cart)
    ensures var s' := Remove(s, id).store;
      Remove(s', id) == Step(s', Err(CartItemNotFound))
  {
  }

  /** Removing row `i` lowers the cart's value by that row's quantity at its price. */
  lemma RemoveValue(s: Store, i: nat)
    requires Valid(s) && i < |s.cart|
    ensures CartValue(s.catalog, Remove(s, s.cart[i].id).store.cart)
         == CartValue(s.catalog, s.cart) - s.cart[i].quantity * s.catalog[s.cart[i].productId].priceCents
  {
    RemoveOneRow(s, i);
    CartValueDelete(s.catalog, s.cart, i);
  }

  lemma RemovePreservesValid(s: Store, id: string)
    requires Valid(s)
    ensures Valid(Remove(s, id).store)
  {
    if id in Ids(s.cart) {
      var i :| 0 <= i < |s.cart| && s.cart[i].id == id;
      RemoveOneRow(s, i);
      DropRowKeepsInvariant(s.catalog, s.cart, i);
    }
  }
}
