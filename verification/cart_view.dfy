/**
 GET /api/cart: the cart rows inner-joined with their products, each with its
 line total, and the sum of the line totals.
 */
module CartView {
  import opened Products
  import opened CartStore

  /** A row of the cart query: a cart item with its product's name, price and image. */
  datatype CartLine = CartLine(
    id: string, productId: string, quantity: int,
    name: string, priceCents: nat, image: string, itemTotal: int)

  /** The response body: the joined rows and their total in cents. */
  datatype View = View(items: seq<CartLine>, totalCents: int)

  /** The foreign key `productId REFERENCES products (id)`: every row names a catalog product. */
  ghost predicate References(c: Cart, cat: Catalog)
  {
    forall i | 0 <= i < |c| :: c[i].productId in cat
  }

  /** A line carries its product's catalog data and a line total of quantity times price. */
  predicate JoinedFrom(cat: Catalog, l: CartLine)
  {
    && l.productId in cat
    && l.name == cat[l.productId].name
    && l.priceCents == cat[l.productId].priceCents
    && l.image == cat[l.productId].image
    && l.itemTotal == l.quantity * l.priceCents
  }

  function Join(cat: Catalog, item: CartItem): CartLine
    requires item.productId in cat
  {
    var p := cat[item.productId];
    CartLine(item.id, item.productId, item.quantity, p.name, p.priceCents, p.image,
             item.quantity * p.priceCents)
  }

  /** The inner join: rows whose product is missing from the catalog produce no line. */
  function Lines(cat: Catalog, c: Cart): (r: seq<CartLine>)
    ensures |r| <= |c|
    ensures forall k | 0 <= k < |r| :: JoinedFrom(cat, r[k])
    ensures References(c, cat) ==>
      && |r| == |c|
      && forall i | 0 <= i < |c| ::
           r[i].id == c[i].id && r[i].productId == c[i].productId && r[i].quantity == c[i].quantity
    ensures r == [] <==> forall i | 0 <= i < |c| :: c[i].productId !in cat
  {
    if c == [] then []
    else
      var rest := Lines(cat, c[1..]);
      assert forall i | 0 <= i < |c[1..]| :: c[1..][i] == c[i + 1];
      if c[0].productId in cat then [Join(cat, c[0])] + rest else rest
  }

  /** The sum of the line totals, starting from 0, as the handlers compute the cart total. */
  function Total(lines: seq<CartLine>): int
  {
    if lines == [] then 0 else lines[0].itemTotal + Total(lines[1..])
  }

  /** What one row contributes to the cart's value: quantity times its product's price. */
  function ItemValue(cat: Catalog, item: CartItem): int
  {
    if item.productId in cat then item.quantity * cat[item.productId].priceCents else 0
  }

  /** The cart's value, summed directly over its rows. */
  function CartValue(cat: Catalog, c: Cart): int
  {
    if c == [] then 0 else ItemValue(cat, c[0]) + CartValue(cat, c[1..])
  }

  /** The summed line totals of the join are the cart's value. */
  lemma {:induction false} TotalIsCartValue(cat: Catalog, c: Cart)
    ensures Total(Lines(cat, c)) == CartValue(cat, c)
  {
    if c != [] {
      TotalIsCartValue(cat, c[1..]);
    }
  }

  /** GET /api/cart. Reading the cart has no effect on the store, so no new state is returned. */
  function ViewOf(cat: Catalog, c: Cart): (v: View)
    ensures v.totalCents == CartValue(cat, c)
    ensures forall k | 0 <= k < |v.items| :: JoinedFrom(cat, v.items[k])
    ensures References(c, cat) ==> |v.items| == |c|
    ensures c == [] ==> v == View([], 0)
  {
    var lines := Lines(cat, c);
    TotalIsCartValue(cat, c);
    View(lines, Total(lines))
  }

  lemma {:induction false} CartValueConcat(cat: Catalog, a: Cart, b: Cart)
    ensures CartValue(cat, a + b) == CartValue(cat, a) + CartValue(cat, b)
  {
    if a == [] {
      assert a + b == b;
    } else {
      assert (a + b)[1..] == a[1..] + b;
      CartValueConcat(cat, a[1..], b);
    }
  }

  lemma CartValueAppend(cat: Catalog, c: Cart, x: CartItem)
    ensures CartValue(cat, c + [x]) == CartValue(cat, c) + ItemValue(cat, x)
  {
    CartValueConcat(cat, c, [x]);
    assert [x][1..] == [];
  }

  lemma CartValueSplit(cat: Catalog, c: Cart, i: nat)
    requires i < |c|
    ensures CartValue(cat, c) == CartValue(cat, c[..i]) + ItemValue(cat, c[i]) + CartValue(cat, c[i+1..])
  {
    assert c == c[..i] + [c[i]] + c[i+1..];
    CartValueConcat(cat, c[..i] + [c[i]], c[i+1..]);
    CartValueAppend(cat, c[..i], c[i]);
  }

  /** Replacing one row changes the value by the difference of the two rows' values. */
  lemma CartValueReplace(cat: Catalog, c: Cart, i: nat, x: CartItem)
    requires i < |c|
    ensures CartValue(cat, c[i := x]) == CartValue(cat, c) - ItemValue(cat, c[i]) + ItemValue(cat, x)
  {
    var d := c[i := x];
    CartValueSplit(cat, c, i);
    CartValueSplit(cat, d, i);
    assert d[..i] == c[..i] && d[i+1..] == c[i+1..];
  }

  /** Removing one row lowers the value by that row's value. */
  lemma CartValueDelete(cat: Catalog, c: Cart, i: nat)
    requires i < |c|
    ensures CartValue(cat, c[..i] + c[i+1..]) == CartValue(cat, c) - ItemValue(cat, c[i])
  {
    CartValueSplit(cat, c, i);
    CartValueConcat(cat, c[..i], c[i+1..]);
  }

  /** Dropping a row keeps every cart invariant that constrains rows or pairs of rows. */
  lemma DropRowKeepsInvariant(cat: Catalog, c: Cart, i: nat)
    requires i < |c|
    requires UniqueIds(c) && UniqueProducts(c) && References(c, cat)
    ensures var d := c[..i] + c[i+1..];
      UniqueIds(d) && UniqueProducts(d) && References(d, cat)
  {
    var d := c[..i] + c[i+1..];
    assert forall k | 0 <= k < |d| :: d[k] == c[if k < i then k else k + 1];
  }
}
