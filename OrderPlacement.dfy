/**
 * The rules of `POST /api/orders`: per-line validation, the order total, the
 * price snapshot copied into each order item and the stock decrement.
 * Every function walks the cart from its last line backwards, so that a loop
 * over a prefix `cart[..i]` extends it by one line at a time.
 */
module OrderPlacement {
  import opened Domain
  import opened Catalog

  /** The check applied to one line: the product must exist, be active and have enough stock. */
  function LineCheck(products: map<ProductId, Product>, line: CartLine): (r: Option<LineError>)
    ensures r == None <==>
      line.productId in products && products[line.productId].active
      && line.quantity <= products[line.productId].stock
    ensures r.Some? ==> r.value.productId == line.productId
    ensures r == Some(Unavailable(line.productId)) <==>
      line.productId !in products || !products[line.productId].active
    ensures line.productId in products && products[line.productId].active
            && products[line.productId].stock < line.quantity ==>
      r == Some(InsufficientStock(line.productId, products[line.productId].stock, line.quantity))
  {
    if line.productId !in products || !products[line.productId].active then
      Some(Unavailable(line.productId))
    else if products[line.productId].stock < line.quantity then
      Some(InsufficientStock(line.productId, products[line.productId].stock, line.quantity))
    else
      None
  }

  /** Every line of the cart passes its check. */
  predicate Acceptable(products: map<ProductId, Product>, cart: seq<CartLine>) {
    forall k :: 0 <= k < |cart| ==> LineCheck(products, cart[k]) == None
  }

  /**
   * The errors collected over the whole cart, one per refused line, in cart
   * order: a refused line does not stop the lines after it from being checked.
   */
  function StockErrors(products: map<ProductId, Product>, cart: seq<CartLine>): (r: seq<LineError>)
    ensures |r| <= |cart|
    ensures r == [] <==> Acceptable(products, cart)
    decreases |cart|
  {
    if cart == [] then []
    else
      var previous := StockErrors(products, cart[..|cart| - 1]);
      assert forall k :: 0 <= k < |cart| - 1 ==> cart[..|cart| - 1][k] == cart[k];
      match LineCheck(products, cart[|cart| - 1])
      case None => previous
      case Some(e) => previous + [e]
  }

  /**
   * The total accumulated by the validation loop: the stored price times the
   * quantity, summed over the lines that pass their check.
   */
  function CartTotal(products: map<ProductId, Product>, cart: seq<CartLine>): int
    decreases |cart|
  {
    if cart == [] then 0
    else
      var line := cart[|cart| - 1];
      CartTotal(products, cart[..|cart| - 1])
        + if LineCheck(products, line) == None then products[line.productId].price * line.quantity else 0
  }

  /** The sum of unit price times quantity over stored order items. */
  function ItemsTotal(items: seq<OrderItem>): int
    decreases |items|
  {
    if items == [] then 0
    else ItemsTotal(items[..|items| - 1]) + items[|items| - 1].unitPrice * items[|items| - 1].quantity
  }

  /** The stored items of order `orderId`, in insertion order. */
  function ItemsOf(items: seq<OrderItem>, orderId: OrderId): (r: seq<OrderItem>)
    ensures |r| <= |items|
    ensures forall k :: 0 <= k < |r| ==> r[k].orderId == orderId && r[k] in items
    decreases |items|
  {
    if items == [] then []
    else
      var last := items[|items| - 1];
      ItemsOf(items[..|items| - 1], orderId) + if last.orderId == orderId then [last] else []
  }

  /**
   * The items the insertion loop writes for order `orderId`: one per line whose
   * product exists, priced at the product's stored price.
   */
  function Snapshot(orderId: OrderId, products: map<ProductId, Product>, cart: seq<CartLine>): (r: seq<OrderItem>)
    ensures forall k :: 0 <= k < |r| ==> r[k].orderId == orderId && r[k].productId in products
    decreases |cart|
  {
    if cart == [] then []
    else
      var previous := Snapshot(orderId, products, cart[..|cart| - 1]);
      var line := cart[|cart| - 1];
      if line.productId in products then
        previous + [OrderItem(orderId, line.productId, line.quantity, products[line.productId].price)]
      else previous
  }

  /** Two rows of `products` that differ at most in their stock. */
  predicate SameButStock(a: Product, b: Product) {
    a.(stock := 0) == b.(stock := 0)
  }

  /**
   * The catalog after the insertion loop: each line's quantity is subtracted
   * from its product's stock with a plain decrement, without re-checking.
   */
  function Decremented(products: map<ProductId, Product>, cart: seq<CartLine>): (r: map<ProductId, Product>)
    ensures r.Keys == products.Keys
    ensures forall id :: id in r ==> SameButStock(r[id], products[id])
    decreases |cart|
  {
    if cart == [] then products
    else
      var previous := Decremented(products, cart[..|cart| - 1]);
      var line := cart[|cart| - 1];
      if line.productId in previous then
        previous[line.productId := previous[line.productId].(stock := previous[line.productId].stock - line.quantity)]
      else previous
  }

  /** The total quantity the cart asks for of product `id`. */
  function QuantityFor(cart: seq<CartLine>, id: ProductId): int
    decreases |cart|
  {
    if cart == [] then 0
    else QuantityFor(cart[..|cart| - 1], id) + if cart[|cart| - 1].productId == id then cart[|cart| - 1].quantity else 0
  }

  /**
   * The row constraints of `order_items` hold for every line that is inserted:
   * a positive quantity and a non-negative unit price.
   */
  predicate MeetsItemConstraints(products: map<ProductId, Product>, cart: seq<CartLine>) {
    forall k :: 0 <= k < |cart| && cart[k].productId in products ==>
      cart[k].quantity > 0 && products[cart[k].productId].price >= 0
  }

  /** No product appears on two lines of the cart. */
  predicate DistinctProducts(cart: seq<CartLine>) {
    forall i, j :: 0 <= i < j < |cart| ==> cart[i].productId != cart[j].productId
  }

  /**
   * The validation loop of the handler: it checks every line against the
   * catalog as it stands, collects the errors and sums the accepted lines.
   */
  method CheckCart(products: map<ProductId, Product>, cart: seq<CartLine>) returns (errors: seq<LineError>, total: int)
    ensures errors == StockErrors(products, cart)
    ensures total == CartTotal(products, cart)
  {
    errors, total := [], 0;
    for i := 0 to |cart|
      invariant errors == StockErrors(products, cart[..i])
      invariant total == CartTotal(products, cart[..i])
    {
      var line := cart[i];
      assert cart[..i + 1][..i] == cart[..i] && cart[..i + 1][i] == line;
      if line.productId !in products || !products[line.productId].active {
        errors := errors + [Unavailable(line.productId)];
        continue;
      }
      var product := products[line.productId];
      if product.stock < line.quantity {
        errors := errors + [InsufficientStock(line.productId, product.stock, line.quantity)];
        continue;
      }
      total := total + product.price * line.quantity;
    }
    assert cart[..|cart|] == cart;
  }

  /**
   * The insertion loop of the handler: for each line whose product exists it
   * writes an item at the product's current price and decrements the stock.
   * `ok` is false when a row would break the `order_items` constraints, in
   * which case the transaction is rolled back and nothing is kept.
   */
  method WriteItems(orderId: OrderId, products: map<ProductId, Product>, cart: seq<CartLine>)
    returns (ok: bool, written: seq<OrderItem>, after: map<ProductId, Product>)
    ensures ok == MeetsItemConstraints(products, cart)
    ensures ok ==> written == Snapshot(orderId, products, cart) && after == Decremented(products, cart)
  {
    written, after := [], products;
    for i := 0 to |cart|
      invariant written == Snapshot(orderId, products, cart[..i])
      invariant after == Decremented(products, cart[..i])
      invariant MeetsItemConstraints(products, cart[..i])
    {
      var line := cart[i];
      assert cart[..i + 1][..i] == cart[..i] && cart[..i + 1][i] == line;
      assert line.productId in after <==> line.productId in products;
      if line.productId in after {
        var product := after[line.productId];
        assert product.price == products[line.productId].price;
        if line.quantity <= 0 || product.price < 0 {
          assert !MeetsItemConstraints(products, cart) by {
            assert cart[i].productId in products && !(cart[i].quantity > 0 && products[cart[i].productId].price >= 0);
          }
          return false, [], products;
        }
        written := written + [OrderItem(orderId, line.productId, line.quantity, product.price)];
        after := after[line.productId := product.(stock := product.stock - line.quantity)];
      }
    }
    assert cart[..|cart|] == cart;
    ok := true;
  }

  /** Validating two carts one after the other gives the errors of their concatenation. */
  lemma {:induction false} StockErrorsAppend(products: map<ProductId, Product>, a: seq<CartLine>, b: seq<CartLine>)
    ensures StockErrors(products, a + b) == StockErrors(products, a) + StockErrors(products, b)
    decreases |b|
  {
    if b == [] {
      assert a + b == a;
    } else {
      var b' := b[..|b| - 1];
      assert (a + b)[..|a + b| - 1] == a + b';
      assert (a + b)[|a + b| - 1] == b[|b| - 1];
      StockErrorsAppend(products, a, b');
    }
  }

  /** Each refused line contributes its own error, and every error comes from a refused line. */
  lemma {:induction false} StockErrorsExact(products: map<ProductId, Product>, cart: seq<CartLine>, e: LineError)
    ensures e in StockErrors(products, cart) <==>
      exists k :: 0 <= k < |cart| && LineCheck(products, cart[k]) == Some(e)
    decreases |cart|
  {
    if cart != [] {
      var prefix := cart[..|cart| - 1];
      StockErrorsExact(products, prefix, e);
      assert forall k :: 0 <= k < |prefix| ==> prefix[k] == cart[k];
      if exists k :: 0 <= k < |cart| && LineCheck(products, cart[k]) == Some(e) {
        var k :| 0 <= k < |cart| && LineCheck(products, cart[k]) == Some(e);
        if k < |prefix| {
          assert LineCheck(products, prefix[k]) == Some(e);
        }
      }
    }
  }

  /** The items written for an accepted cart: one per line, in order, at the stored price. */
  lemma {:induction false} SnapshotMatchesCart(orderId: OrderId, products: map<ProductId, Product>, cart: seq<CartLine>)
    requires Acceptable(products, cart)
    ensures |Snapshot(orderId, products, cart)| == |cart|
    ensures forall k :: 0 <= k < |cart| ==>
      Snapshot(orderId, products, cart)[k]
        == OrderItem(orderId, cart[k].productId, cart[k].quantity, products[cart[k].productId].price)
    decreases |cart|
  {
    if cart != [] {
      var prefix := cart[..|cart| - 1];
      assert forall k :: 0 <= k < |prefix| ==> prefix[k] == cart[k];
      assert LineCheck(products, cart[|cart| - 1]) == None;
      SnapshotMatchesCart(orderId, products, prefix);
    }
  }

  /** The order header's total equals the sum of its items' unit price times quantity. */
  lemma {:induction false} TotalMatchesItems(orderId: OrderId, products: map<ProductId, Product>, cart: seq<CartLine>)
    requires Acceptable(products, cart)
    ensures ItemsTotal(Snapshot(orderId, products, cart)) == CartTotal(products, cart)
    decreases |cart|
  {
    if cart != [] {
      var prefix := cart[..|cart| - 1];
      assert forall k :: 0 <= k < |prefix| ==> prefix[k] == cart[k];
      assert LineCheck(products, cart[|cart| - 1]) == None;
      TotalMatchesItems(orderId, products, prefix);
      var items := Snapshot(orderId, products, cart);
      assert items[..|items| - 1] == Snapshot(orderId, products, prefix);
    }
  }

  /** The items of an order, taken over two stretches of the table, are those of each stretch. */
  lemma {:induction false} ItemsOfAppend(a: seq<OrderItem>, b: seq<OrderItem>, orderId: OrderId)
    ensures ItemsOf(a + b, orderId) == ItemsOf(a, orderId) + ItemsOf(b, orderId)
    decreases |b|
  {
    if b == [] {
      assert a + b == a;
    } else {
      assert (a + b)[..|a + b| - 1] == a + b[..|b| - 1];
      ItemsOfAppend(a, b[..|b| - 1], orderId);
    }
  }

  /** An order that no stored item refers to has no items. */
  lemma {:induction false} ItemsOfNone(items: seq<OrderItem>, orderId: OrderId)
    requires forall k :: 0 <= k < |items| ==> items[k].orderId != orderId
    ensures ItemsOf(items, orderId) == []
    decreases |items|
  {
    if items != [] {
      ItemsOfNone(items[..|items| - 1], orderId);
    }
  }

  /** Items that all belong to one order are exactly that order's items. */
  lemma {:induction false} ItemsOfAll(items: seq<OrderItem>, orderId: OrderId)
    requires forall k :: 0 <= k < |items| ==> items[k].orderId == orderId
    ensures ItemsOf(items, orderId) == items
    decreases |items|
  {
    if items != [] {
      ItemsOfAll(items[..|items| - 1], orderId);
    }
  }

  /** Each product's stock drops by the total quantity the cart names it with; no other field changes. */
  lemma {:induction false} DecrementedStock(products: map<ProductId, Product>, cart: seq<CartLine>, id: ProductId)
    requires id in products
    ensures Decremented(products, cart)[id] == products[id].(stock := products[id].stock - QuantityFor(cart, id))
    decreases |cart|
  {
    if cart != [] {
      DecrementedStock(products, cart[..|cart| - 1], id);
    }
  }

  /** A product that no line names keeps its whole row. */
  lemma {:induction false} UnreferencedProductUntouched(products: map<ProductId, Product>, cart: seq<CartLine>, id: ProductId)
    requires id in products
    requires forall k :: 0 <= k < |cart| ==> cart[k].productId != id
    ensures Decremented(products, cart)[id] == products[id]
    decreases |cart|
  {
    if cart != [] {
      var prefix := cart[..|cart| - 1];
      assert forall k :: 0 <= k < |prefix| ==> prefix[k] == cart[k];
      UnreferencedProductUntouched(products, prefix, id);
    }
  }

  /** With distinct products, the quantity asked of a product is that of the one line naming it. */
  lemma {:induction false} QuantityForDistinct(cart: seq<CartLine>, k: nat)
    requires k < |cart| && DistinctProducts(cart)
    ensures QuantityFor(cart, cart[k].productId) == cart[k].quantity
    decreases |cart|
  {
    var prefix := cart[..|cart| - 1];
    assert DistinctProducts(prefix);
    if k < |prefix| {
      QuantityForDistinct(prefix, k);
    } else {
      QuantityForAbsent(prefix, cart[k].productId);
    }
  }

  /** A product named on no line is asked for in quantity zero. */
  lemma {:induction false} QuantityForAbsent(cart: seq<CartLine>, id: ProductId)
    requires forall k :: 0 <= k < |cart| ==> cart[k].productId != id
    ensures QuantityFor(cart, id) == 0
    decreases |cart|
  {
    if cart != [] {
      QuantityForAbsent(cart[..|cart| - 1], id);
    }
  }

  /**
   * No oversell for a cart that names each product once: an accepted cart
   * never leaves a product with negative stock unless it had one already.
   */
  lemma NoOversellWhenDistinct(products: map<ProductId, Product>, cart: seq<CartLine>)
    requires Acceptable(products, cart) && DistinctProducts(cart)
    ensures forall id :: id in products && products[id].stock >= 0 ==> Decremented(products, cart)[id].stock >= 0
    ensures forall k :: 0 <= k < |cart| ==> Decremented(products, cart)[cart[k].productId].stock >= 0
  {
    forall id | id in products
      ensures products[id].stock >= 0 ==> Decremented(products, cart)[id].stock >= 0
      ensures (exists k :: 0 <= k < |cart| && cart[k].productId == id) ==> Decremented(products, cart)[id].stock >= 0
    {
      DecrementedStock(products, cart, id);
      if k :| 0 <= k < |cart| && cart[k].productId == id {
        QuantityForDistinct(cart, k);
        assert LineCheck(products, cart[k]) == None;
      } else {
        QuantityForAbsent(cart, id);
      }
    }
  }

  /** A product the public listing shows can be ordered one unit at a time. */
  lemma PubliclyListedIsOrderable(products: map<ProductId, Product>, id: ProductId, viewer: Option<Role>)
    requires viewer.None? || !IsStaff(viewer.value)
    requires id in products && ProductListed(viewer, products[id])
    ensures LineCheck(products, CartLine(id, 1)) == None
  {
  }

  /**
   * The validation checks each line against the stock as it was before the
   * order, so two lines for the same product can together take more than is
   * in stock: 3 in stock, two lines of 2, and the stock ends at -1.
   */
  lemma DuplicateLinesOversell()
    ensures var products := map[1 := Product("Neko-Active", "", 50000, 3, true)];
            var cart := [CartLine(1, 2), CartLine(1, 2)];
            && StockErrors(products, cart) == []
            && MeetsItemConstraints(products, cart)
            && Decremented(products, cart)[1].stock == -1
  {
    var products := map[1 := Product("Neko-Active", "", 50000, 3, true)];
    var cart := [CartLine(1, 2), CartLine(1, 2)];
    assert cart[..1] == [CartLine(1, 2)] && cart[..1][..0] == [];
    assert Acceptable(products, cart);
    DecrementedStock(products, cart, 1);
    assert QuantityFor(cart[..1], 1) == 2;
  }
}
