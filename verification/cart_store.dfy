/**
 The `cart_items` table and the SQL statements the handlers run against it.
 The rows are kept in scan order, which is insertion order: an UPDATE keeps a
 row in place, an INSERT appends, a DELETE closes the gap.
 */
module CartStore {
  import opened Wrappers

  /** A row of `cart_items`. The `addedAt` column is never read and is not modelled. */
  datatype CartItem = CartItem(id: string, productId: string, quantity: int)

  type Cart = seq<CartItem>

  /** The values of the `id` column. */
  function Ids(c: Cart): set<string>
  {
    set i | 0 <= i < |c| :: c[i].id
  }

  /** The `id` primary key: no two rows share an id. */
  ghost predicate UniqueIds(c: Cart)
  {
    forall i, j | 0 <= i < j < |c| :: c[i].id != c[j].id
  }

  /** The cart's intended shape: at most one row per product. */
  ghost predicate UniqueProducts(c: Cart)
  {
    forall i, j | 0 <= i < j < |c| :: c[i].productId != c[j].productId
  }

  /**
   `SELECT * FROM cart_items WHERE productId = ?` read with `db.get`: the
   index of the first row for the product, if there is one.
   */
  function FindByProduct(c: Cart, productId: string): (r: Option<nat>)
    ensures r.None? <==> forall j | 0 <= j < |c| :: c[j].productId != productId
    ensures r.Some? ==>
      && r.value < |c|
      && c[r.value].productId == productId
      && forall j | 0 <= j < r.value :: c[j].productId != productId
  {
    if c == [] then None
    else if c[0].productId == productId then Some(0)
    else match FindByProduct(c[1..], productId)
      case None => None
      case Some(k) => Some(k + 1)
  }

  /** `UPDATE cart_items SET quantity = ? WHERE productId = ?`: every row of the product. */
  function SetQuantityWhereProduct(c: Cart, productId: string, quantity: int): Cart
  {
    seq(|c|, j requires 0 <= j < |c| =>
      if c[j].productId == productId then c[j].(quantity := quantity) else c[j])
  }

  /** `UPDATE cart_items SET quantity = ? WHERE id = ?`: every row with the id. */
  function SetQuantityWhereId(c: Cart, id: string, quantity: int): Cart
  {
    seq(|c|, j requires 0 <= j < |c| =>
      if c[j].id == id then c[j].(quantity := quantity) else c[j])
  }

  /** `DELETE FROM cart_items WHERE id = ?`: the rows without that id, in their order. */
  function DeleteWhereId(c: Cart, id: string): (r: Cart)
    ensures |r| <= |c|
    ensures forall x :: x in r <==> x in c && x.id != id
    ensures id !in Ids(c) ==> r == c
  {
    if c == [] then []
    else if c[0].id == id then DeleteWhereId(c[1..], id)
    else [c[0]] + DeleteWhereId(c[1..], id)
  }

  /** The number of rows for a product. */
  function ProductCount(c: Cart, productId: string): (n: nat)
    ensures n == 0 <==> forall j | 0 <= j < |c| :: c[j].productId != productId
    ensures n <= |c|
  {
    if c == [] then 0
    else (if c[0].productId == productId then 1 else 0) + ProductCount(c[1..], productId)
  }

  /** The quantity held of a product, summed over its rows. */
  function ProductQuantity(c: Cart, productId: string): (q: int)
    ensures (forall j | 0 <= j < |c| :: c[j].productId != productId) ==> q == 0
  {
    if c == [] then 0
    else (if c[0].productId == productId then c[0].quantity else 0) + ProductQuantity(c[1..], productId)
  }

  lemma {:induction false} ProductTalliesConcat(a: Cart, b: Cart, productId: string)
    ensures ProductCount(a + b, productId) == ProductCount(a, productId) + ProductCount(b, productId)
    ensures ProductQuantity(a + b, productId) == ProductQuantity(a, productId) + ProductQuantity(b, productId)
  {
    if a == [] {
      assert a + b == b;
    } else {
      assert (a + b)[1..] == a[1..] + b;
      ProductTalliesConcat(a[1..], b, productId);
    }
  }

  /** A product held by exactly one row is counted once, with that row's quantity. */
  lemma ProductTalliesOfSoleRow(c: Cart, i: nat)
    requires i < |c|
    requires forall j | 0 <= j < |c| && j != i :: c[j].productId != c[i].productId
    ensures ProductCount(c, c[i].productId) == 1
    ensures ProductQuantity(c, c[i].productId) == c[i].quantity
  {
    var p := c[i].productId;
    var before, after := c[..i], c[i+1..];
    assert c == before + [c[i]] + after;
    assert forall j | 0 <= j < |before| :: before[j] == c[j];
    assert forall j | 0 <= j < |after| :: after[j] == c[i + 1 + j];
    ProductTalliesConcat(before + [c[i]], after, p);
    ProductTalliesConcat(before, [c[i]], p);
    assert [c[i]][1..] == [];
  }

  /** The invariant read as a count: a cart with one row per product holds no product twice. */
  lemma {:induction false} UniqueProductsCount(c: Cart, productId: string)
    requires UniqueProducts(c)
    ensures ProductCount(c, productId) <= 1
  {
    if c != [] {
      assert UniqueProducts(c[1..]) by {
        forall i, j | 0 <= i < j < |c[1..]| ensures c[1..][i].productId != c[1..][j].productId {
          assert c[1..][i] == c[i + 1] && c[1..][j] == c[j + 1];
        }
      }
      UniqueProductsCount(c[1..], productId);
      if c[0].productId == productId {
        assert forall j | 0 <= j < |c[1..]| :: c[1..][j].productId != productId by {
          forall j | 0 <= j < |c[1..]| ensures c[1..][j].productId != productId {
            assert c[1..][j] == c[j + 1];
          }
        }
      }
    }
  }

  /** When the product has one row, the product-keyed UPDATE touches only that row. */
  lemma SetQuantityWhereProductUnique(c: Cart, i: nat, quantity: int)
    requires UniqueProducts(c) && i < |c|
    ensures SetQuantityWhereProduct(c, c[i].productId, quantity) == c[i := c[i].(quantity := quantity)]
  {
  }

  /** When the id is held by one row, the id-keyed UPDATE touches only that row. */
  lemma SetQuantityWhereIdUnique(c: Cart, i: nat, quantity: int)
    requires UniqueIds(c) && i < |c|
    ensures SetQuantityWhereId(c, c[i].id, quantity) == c[i := c[i].(quantity := quantity)]
  {
  }

  /** When the id is held by one row, the DELETE removes exactly that row. */
  lemma {:induction false} DeleteWhereIdUnique(c: Cart, i: nat)
    requires UniqueIds(c) && i < |c|
    ensures DeleteWhereId(c, c[i].id) == c[..i] + c[i+1..]
  {
    var id := c[i].id;
    var tail := c[1..];
    if i == 0 {
      assert id !in Ids(tail) by {
        forall j | 0 <= j < |tail| ensures tail[j].id != id {
          assert tail[j] == c[j + 1];
        }
      }
      assert DeleteWhereId(c, id) == DeleteWhereId(tail, id);
      assert c[..0] + c[1..] == tail;
    } else {
      assert c[0].id != id;
      assert DeleteWhereId(c, id) == [c[0]] + DeleteWhereId(tail, id);
      UniqueIdsTail(c);
      assert tail[i - 1] == c[i];
      DeleteWhereIdUnique(tail, i - 1);
      assert [c[0]] + (tail[..i - 1] + tail[i..]) == c[..i] + c[i+1..];
    }
  }

  lemma UniqueIdsTail(c: Cart)
    requires UniqueIds(c) && c != []
    ensures UniqueIds(c[1..])
  {
    forall a, b | 0 <= a < b < |c[1..]| ensures c[1..][a].id != c[1..][b].id {
      assert c[1..][a] == c[a + 1] && c[1..][b] == c[b + 1];
    }
  }
}
