/**
 * The backend's tables held in memory, and one method per request handler.
 * Each handler runs as one atomic step; a handler that fails leaves every
 * table as it was.
 */
module Store {
  import opened Domain
  import opened Columns
  import opened Catalog
  import opened OrderPlacement
  import opened OrderStatus
  import opened Inventory
  import opened Messaging

  /** All tables at once, so that a contract can say which of them a handler changes. */
  datatype Tables = Tables(
    products: map<ProductId, Product>,
    tents: map<TentId, Tent>,
    orders: map<OrderId, Order>,
    items: seq<OrderItem>,
    requests: map<RequestId, InventoryRequest>,
    messages: map<MessageId, Message>,
    nextOrderId: OrderId,
    nextRequestId: RequestId)

  /** The unique constraint on `tents.tent_number`. */
  predicate TentNumbersUnique(tents: map<TentId, Tent>) {
    forall a, b :: a in tents && b in tents && tents[a].number == tents[b].number ==> a == b
  }

  /** `id` is an active tent with the given number. */
  predicate IsActiveTent(tents: map<TentId, Tent>, id: TentId, number: string) {
    id in tents && tents[id].number == number && tents[id].active
  }

  predicate HasActiveTent(tents: map<TentId, Tent>, number: string) {
    exists id :: id in tents && IsActiveTent(tents, id, number)
  }

  /** Every order refers to an existing tent and has an id below the next serial value. */
  ghost predicate OrdersReferenceTents(orders: map<OrderId, Order>, tents: map<TentId, Tent>, nextOrderId: OrderId) {
    forall o :: o in orders ==> o < nextOrderId && orders[o].tentId in tents
  }

  /** Every order's total equals the sum of unit price times quantity over its stored items. */
  ghost predicate TotalsMatchItems(orders: map<OrderId, Order>, items: seq<OrderItem>) {
    forall o :: o in orders ==> orders[o].total == ItemsTotal(ItemsOf(items, o))
  }

  /** Every stored item refers to an existing order and an existing product. */
  ghost predicate ItemsReferenceRows(orders: map<OrderId, Order>, products: map<ProductId, Product>, items: seq<OrderItem>) {
    forall k :: 0 <= k < |items| ==> items[k].orderId in orders && items[k].productId in products
  }

  /** Every request refers to an existing product and has an id below the next serial value. */
  ghost predicate RequestsReferenceProducts(requests: map<RequestId, InventoryRequest>, products: map<ProductId, Product>, nextRequestId: RequestId) {
    forall q :: q in requests ==> q < nextRequestId && requests[q].productId in products
  }

  /** The tent an order for `number` goes to; unique by the tent-number constraint. */
  ghost function TentFor(tents: map<TentId, Tent>, number: string): (id: TentId)
    requires HasActiveTent(tents, number)
    ensures IsActiveTent(tents, id, number)
    ensures TentNumbersUnique(tents) ==> forall other :: IsActiveTent(tents, other, number) ==> other == id
  {
    var id :| id in tents && IsActiveTent(tents, id, number); id
  }

  /**
   * The table constraints the handlers keep: unique tent numbers, foreign
   * keys from orders to tents, from items to orders and products and from
   * requests to products, serial ids above every key in use, and every
   * order's total equal to the sum of its items.
   */
  ghost predicate Consistent(t: Tables) {
    && TentNumbersUnique(t.tents)
    && OrdersReferenceTents(t.orders, t.tents, t.nextOrderId)
    && TotalsMatchItems(t.orders, t.items)
    && ItemsReferenceRows(t.orders, t.products, t.items)
    && RequestsReferenceProducts(t.requests, t.products, t.nextRequestId)
  }

  /**
   * Committing an order keeps the constraints: the order takes the next serial
   * id and an existing tent, its items refer to it and to existing products
   * and add up to its total, and the decrement keeps every product row.
   */
  lemma CommitKeepsConsistent(t: Tables, o: Order, written: seq<OrderItem>, after: map<ProductId, Product>)
    requires Consistent(t) && o.tentId in t.tents && after.Keys == t.products.Keys
    requires forall k :: 0 <= k < |written| ==> written[k].orderId == t.nextOrderId && written[k].productId in t.products
    requires o.total == ItemsTotal(written)
    ensures Consistent(t.(orders := t.orders[t.nextOrderId := o], items := t.items + written,
                          products := after, nextOrderId := t.nextOrderId + 1))
  {
    var t' := t.(orders := t.orders[t.nextOrderId := o], items := t.items + written,
                 products := after, nextOrderId := t.nextOrderId + 1);
    CommitKeepsReferences(t.orders, t.products, t.items, t.nextOrderId, o, written, after);
    NoItemOfNextOrder(t);
    CommitKeepsTotals(t.orders, t.items, t.nextOrderId, o, written);
    assert OrdersReferenceTents(t'.orders, t'.tents, t'.nextOrderId);
    assert RequestsReferenceProducts(t'.requests, t'.products, t'.nextRequestId);
  }

  /**
   * Updating rows in place keeps the constraints, as long as no row is added
   * or removed and no tent number, order reference, order total or request
   * reference changes.
   */
  lemma RowUpdateKeepsConsistent(t: Tables, t': Tables)
    requires Consistent(t)
    requires t'.tents.Keys == t.tents.Keys && forall x :: x in t.tents ==> t'.tents[x].number == t.tents[x].number
    requires t'.products.Keys == t.products.Keys
    requires t'.orders.Keys == t.orders.Keys
    requires forall o :: o in t.orders ==> t'.orders[o].tentId == t.orders[o].tentId && t'.orders[o].total == t.orders[o].total
    requires t'.requests.Keys == t.requests.Keys
    requires forall q :: q in t.requests ==> t'.requests[q].productId == t.requests[q].productId
    requires t'.items == t.items && t'.nextOrderId == t.nextOrderId && t'.nextRequestId == t.nextRequestId
    ensures Consistent(t')
  {
    assert TentNumbersUnique(t'.tents) by {
      forall a, b | a in t'.tents && b in t'.tents && t'.tents[a].number == t'.tents[b].number
        ensures a == b
      {
        assert t.tents[a].number == t.tents[b].number;
      }
    }
    assert TotalsMatchItems(t'.orders, t'.items) by {
      forall o | o in t'.orders
        ensures t'.orders[o].total == ItemsTotal(ItemsOf(t'.items, o))
      {
        assert t.orders[o].total == ItemsTotal(ItemsOf(t.items, o));
      }
    }
  }

  /** No stored item refers to the order id the serial will hand out next. */
  lemma NoItemOfNextOrder(t: Tables)
    requires OrdersReferenceTents(t.orders, t.tents, t.nextOrderId) && ItemsReferenceRows(t.orders, t.products, t.items)
    ensures forall k :: 0 <= k < |t.items| ==> t.items[k].orderId != t.nextOrderId
  {
  }

  /** The items of a new order refer to it and to existing products, so every item still refers to existing rows. */
  lemma CommitKeepsReferences(orders: map<OrderId, Order>, products: map<ProductId, Product>, items: seq<OrderItem>,
                              id: OrderId, o: Order, written: seq<OrderItem>, after: map<ProductId, Product>)
    requires ItemsReferenceRows(orders, products, items) && after.Keys == products.Keys
    requires forall k :: 0 <= k < |written| ==> written[k].orderId == id && written[k].productId in products
    ensures ItemsReferenceRows(orders[id := o], after, items + written)
  {
    forall k | 0 <= k < |items + written|
      ensures (items + written)[k].orderId in orders[id := o] && (items + written)[k].productId in after
    {
      if k >= |items| {
        assert (items + written)[k] == written[k - |items|];
      }
    }
  }

  /** A new order whose items add up to its total keeps every order's total equal to its items' sum. */
  lemma CommitKeepsTotals(orders: map<OrderId, Order>, items: seq<OrderItem>, id: OrderId, o: Order, written: seq<OrderItem>)
    requires TotalsMatchItems(orders, items)
    requires forall k :: 0 <= k < |items| ==> items[k].orderId != id
    requires forall k :: 0 <= k < |written| ==> written[k].orderId == id
    requires o.total == ItemsTotal(written)
    ensures TotalsMatchItems(orders[id := o], items + written)
  {
    forall x | x in orders[id := o]
      ensures orders[id := o][x].total == ItemsTotal(ItemsOf(items + written, x))
    {
      ItemsOfAppend(items, written, x);
      if x == id {
        ItemsOfNone(items, x);
        ItemsOfAll(written, x);
        assert [] + written == written;
      } else {
        ItemsOfNone(written, x);
        assert ItemsOf(items, x) + [] == ItemsOf(items, x);
      }
    }
  }

  /** A fresh order row: status `new`, payment `pending`, no courier. */
  function NewOrder(tentId: TentId, total: int, paymentMethod: string): Order {
    Order(tentId, total, "new", "pending", paymentMethod, None)
  }

  class Store {
    var products: map<ProductId, Product>
    var tents: map<TentId, Tent>
    var orders: map<OrderId, Order>
    var items: seq<OrderItem>
    var requests: map<RequestId, InventoryRequest>
    var messages: map<MessageId, Message>
    var nextOrderId: OrderId
    var nextRequestId: RequestId

    ghost function State(): Tables
      reads this
    {
      Tables(products, tents, orders, items, requests, messages, nextOrderId, nextRequestId)
    }

    /** The table constraints hold of the current contents. */
    ghost predicate Valid()
      reads this
    {
      Consistent(State())
    }

    /** A store over a seeded catalog, tent list and message board, with no orders or requests. */
    constructor (products: map<ProductId, Product>, tents: map<TentId, Tent>, messages: map<MessageId, Message>)
      requires TentNumbersUnique(tents)
      ensures Valid()
      ensures State() == Tables(products, tents, map[], [], map[], messages, 1, 1)
    {
      this.products := products;
      this.tents := tents;
      this.messages := messages;
      orders, items, requests := map[], [], map[];
      nextOrderId, nextRequestId := 1, 1;
    }

    /** `PUT /api/products/:id`: replace a product's fields, clamping the stock at zero. */
    method UpdateProduct(caller: Caller, id: ProductId, name: string, description: string, price: int, stock: int)
      returns (r: Result<Product, Failure>)
      requires Valid()
      modifies this
      ensures Valid()
      ensures r == Err(Forbidden) <==> !IsStaff(caller.role)
      ensures r == Err(ConstraintViolation) <==> IsStaff(caller.role) && ColumnValue(name, NameWidth).None?
      ensures r == Err(NotFound) <==>
        IsStaff(caller.role) && ColumnValue(name, NameWidth).Some? && id !in old(products)
      ensures r.Ok? <==> IsStaff(caller.role) && ColumnValue(name, NameWidth).Some? && id in old(products)
      ensures r.Err? ==> State() == old(State())
      ensures r.Ok? ==>
        && r.value == Product(ColumnValue(name, NameWidth).value, description, price, Clamp(stock), old(products)[id].active)
        && State() == old(State()).(products := old(products)[id := r.value])
    {
      if !IsStaff(caller.role) {
        return Err(Forbidden);
      }
      var stored := ColumnValue(name, NameWidth);
      if stored.None? {
        return Err(ConstraintViolation);
      }
      if id !in products {
        return Err(NotFound);
      }
      var updated := Product(stored.value, description, price, Clamp(stock), products[id].active);
      products := products[id := updated];
      RowUpdateKeepsConsistent(old(State()), State());
      r := Ok(updated);
    }

    /** `PATCH /api/products/:id/stock`: set, add to or subtract from the stock, never below zero. */
    method PatchStock(caller: Caller, id: ProductId, operation: string, amount: int, newValue: int)
      returns (r: Result<Product, Failure>)
      requires Valid()
      modifies this
      ensures Valid()
      ensures r == Err(Forbidden) <==> !IsStaff(caller.role)
      ensures r == Err(InvalidOperation) <==> IsStaff(caller.role) && operation !in ["set", "add", "subtract"]
      ensures r == Err(NotFound) <==>
        IsStaff(caller.role) && operation in ["set", "add", "subtract"] && id !in old(products)
      ensures r.Ok? <==> IsStaff(caller.role) && operation in ["set", "add", "subtract"] && id in old(products)
      ensures r.Err? ==> State() == old(State())
      ensures r.Ok? ==>
        && r.value.stock >= 0
        && Some(r.value.stock) == PatchedStock(operation, old(products)[id].stock, amount, newValue)
        && r.value == old(products)[id].(stock := r.value.stock)
        && State() == old(State()).(products := old(products)[id := r.value])
    {
      if !IsStaff(caller.role) {
        return Err(Forbidden);
      }
      var current := if id in products then products[id].stock else 0;
      var patched := PatchedStock(operation, current, amount, newValue);
      if patched.None? {
        return Err(InvalidOperation);
      }
      if id !in products {
        return Err(NotFound);
      }
      var updated := products[id].(stock := patched.value);
      products := products[id := updated];
      RowUpdateKeepsConsistent(old(State()), State());
      r := Ok(updated);
    }

    /** `PATCH /api/products/:id/toggle`: flip whether the product is on sale. */
    method ToggleProduct(caller: Caller, id: ProductId) returns (r: Result<Product, Failure>)
      requires Valid()
      modifies this
      ensures Valid()
      ensures r == Err(Forbidden) <==> !IsStaff(caller.role)
      ensures r == Err(NotFound) <==> IsStaff(caller.role) && id !in old(products)
      ensures r.Ok? <==> IsStaff(caller.role) && id in old(products)
      ensures r.Err? ==> State() == old(State())
      ensures r.Ok? ==>
        && r.value == old(products)[id].(active := !old(products)[id].active)
        && State() == old(State()).(products := old(products)[id := r.value])
    {
      if !IsStaff(caller.role) {
        return Err(Forbidden);
      }
      if id !in products {
        return Err(NotFound);
      }
      var updated := products[id].(active := !products[id].active);
      products := products[id := updated];
      RowUpdateKeepsConsistent(old(State()), State());
      r := Ok(updated);
    }

    /** `PATCH /api/tents/:id/toggle`: flip whether the tent accepts orders. */
    method ToggleTent(caller: Caller, id: TentId) returns (r: Result<Tent, Failure>)
      requires Valid()
      modifies this
      ensures Valid()
      ensures r == Err(Forbidden) <==> !IsStaff(caller.role)
      ensures r == Err(NotFound) <==> IsStaff(caller.role) && id !in old(tents)
      ensures r.Ok? <==> IsStaff(caller.role) && id in old(tents)
      ensures r.Err? ==> State() == old(State())
      ensures r.Ok? ==>
        && r.value == old(tents)[id].(active := !old(tents)[id].active)
        && State() == old(State()).(tents := old(tents)[id := r.value])
    {
      if !IsStaff(caller.role) {
        return Err(Forbidden);
      }
      if id !in tents {
        return Err(NotFound);
      }
      var updated := tents[id].(active := !tents[id].active);
      tents := tents[id := updated];
      RowUpdateKeepsConsistent(old(State()), State());
      r := Ok(updated);
    }

    /**
     * `DELETE /api/tents/:id`: admins only, and never a tent that an order
     * refers to; such a tent can only be deactivated.
     */
    method DeleteTent(caller: Caller, id: TentId) returns (r: Result<Tent, Failure>)
      requires Valid()
      modifies this
      ensures Valid()
      ensures r == Err(Forbidden) <==> caller.role != Admin
      ensures r == Err(TentHasOrders) <==>
        caller.role == Admin && exists o :: o in old(orders) && old(orders)[o].tentId == id
      ensures r == Err(NotFound) <==>
        caller.role == Admin && (forall o :: o in old(orders) ==> old(orders)[o].tentId != id) && id !in old(tents)
      ensures r.Ok? <==>
        caller.role == Admin && (forall o :: o in old(orders) ==> old(orders)[o].tentId != id) && id in old(tents)
      ensures r.Err? ==> State() == old(State())
      ensures r.Ok? ==> r.value == old(tents)[id] && State() == old(State()).(tents := old(tents) - {id})
    {
      if caller.role != Admin {
        return Err(Forbidden);
      }
      if exists o :: o in orders && orders[o].tentId == id {
        return Err(TentHasOrders);
      }
      if id !in tents {
        return Err(NotFound);
      }
      r := Ok(tents[id]);
      tents := tents - {id};
    }

    /**
     * `POST /api/orders`, all or nothing: resolve an active tent, validate every
     * line against the catalog, then insert the order at the computed total,
     * one item per line at the stored price, and decrement each product's stock.
     * The tables are written only once every step has succeeded.
     */
    method PlaceOrder(tentNumber: string, cart: seq<CartLine>, paymentMethod: string) returns (r: Result<OrderId, Failure>)
      requires Valid()
      modifies this
      ensures Valid()
      ensures r.Err? ==> State() == old(State())
      ensures r == Err(NotFound) <==> !HasActiveTent(old(tents), tentNumber)
      ensures HasActiveTent(old(tents), tentNumber) && !Acceptable(old(products), cart) ==>
        r == Err(StockRejected(StockErrors(old(products), cart)))
      ensures (HasActiveTent(old(tents), tentNumber) && Acceptable(old(products), cart)
               && (ColumnValue(paymentMethod, PaymentMethodWidth).None? || !MeetsItemConstraints(old(products), cart))) ==>
        r == Err(ConstraintViolation)
      ensures r.Ok? <==>
        HasActiveTent(old(tents), tentNumber) && Acceptable(old(products), cart)
        && ColumnValue(paymentMethod, PaymentMethodWidth).Some? && MeetsItemConstraints(old(products), cart)
      ensures r.Ok? ==> r.value !in old(orders)
      ensures r.Ok? ==>
        orders == old(orders)[r.value := NewOrder(TentFor(old(tents), tentNumber), CartTotal(old(products), cart),
                                         ColumnValue(paymentMethod, PaymentMethodWidth).value)]
      ensures r.Ok? ==> items == old(items) + Snapshot(r.value, old(products), cart)
      ensures r.Ok? ==> products == Decremented(old(products), cart)
      ensures r.Ok? ==>
        State() == old(State()).(orders := orders, items := items, products := products, nextOrderId := nextOrderId)
    {
      if !HasActiveTent(tents, tentNumber) {
        return Err(NotFound);
      }
      var tentId :| tentId in tents && IsActiveTent(tents, tentId, tentNumber);
      assert tentId == TentFor(tents, tentNumber);
      var errors, total := CheckCart(products, cart);
      if errors != [] {
        return Err(StockRejected(errors));
      }
      var storedMethod := ColumnValue(paymentMethod, PaymentMethodWidth);
      if storedMethod.None? {
        return Err(ConstraintViolation);
      }
      var id := nextOrderId;
      var ok, written, after := WriteItems(id, products, cart);
      if !ok {
        return Err(ConstraintViolation);
      }
      TotalMatchesItems(id, products, cart);
      Commit(NewOrder(tentId, total, storedMethod.value), written, after);
      r := Ok(id);
    }

    /**
     * The writes of an accepted order: the order row under the next serial id,
     * its items and the decremented catalog.
     */
    method Commit(o: Order, written: seq<OrderItem>, after: map<ProductId, Product>)
      requires Valid() && o.tentId in tents && after.Keys == products.Keys
      requires forall k :: 0 <= k < |written| ==> written[k].orderId == nextOrderId && written[k].productId in products
      requires o.total == ItemsTotal(written)
      modifies this
      ensures Valid()
      ensures State() == old(State()).(orders := old(orders)[old(nextOrderId) := o], items := old(items) + written,
                                       products := after, nextOrderId := old(nextOrderId) + 1)
    {
      CommitKeepsConsistent(State(), o, written, after);
      orders := orders[nextOrderId := o];
      items, products, nextOrderId := items + written, after, nextOrderId + 1;
    }

    /**
     * `PUT /api/orders/:id/status`: any authenticated caller sets the status;
     * a courier setting `in_delivery` also becomes the order's courier.
     */
    method UpdateOrderStatus(caller: Caller, id: OrderId, status: string) returns (r: Result<Order, Failure>)
      requires Valid()
      modifies this
      ensures Valid()
      ensures r == Err(ConstraintViolation) <==> ColumnValue(status, StatusWidth).None?
      ensures r == Err(NotFound) <==> ColumnValue(status, StatusWidth).Some? && id !in old(orders)
      ensures r.Ok? <==> ColumnValue(status, StatusWidth).Some? && id in old(orders)
      ensures r.Err? ==> State() == old(State())
      ensures r.Ok? ==>
        && r.value == StatusUpdated(old(orders)[id], caller, ColumnValue(status, StatusWidth).value)
        && State() == old(State()).(orders := old(orders)[id := r.value])
      ensures r.Ok? && IsCourierClaim(caller, status) ==> r.value.courier == Some(caller.id)
      ensures r.Ok? && !IsCourierClaim(caller, status) ==> r.value.courier == old(orders)[id].courier
    {
      var stored := ColumnValue(status, StatusWidth);
      if stored.None? {
        return Err(ConstraintViolation);
      }
      if id !in orders {
        return Err(NotFound);
      }
      StoredStatusClaims(caller, status);
      var updated := StatusUpdated(orders[id], caller, stored.value);
      orders := orders[id := updated];
      RowUpdateKeepsConsistent(old(State()), State());
      r := Ok(updated);
    }

    /** `POST /api/inventory-requests`: a courier, admin or operator asks for more stock. */
    method CreateRequest(caller: Caller, productId: ProductId, requested: int) returns (r: Result<RequestId, Failure>)
      requires Valid()
      modifies this
      ensures Valid()
      ensures forall q :: q in old(requests) ==> q in requests && LifecycleStep(old(requests)[q], requests[q])
      ensures r == Err(Forbidden) <==> !CanRequest(caller.role)
      ensures r == Err(ConstraintViolation) <==>
        CanRequest(caller.role) && (requested <= 0 || productId !in old(products))
      ensures r.Ok? <==> CanRequest(caller.role) && requested > 0 && productId in old(products)
      ensures r.Err? ==> State() == old(State())
      ensures r.Ok? ==>
        && r.value !in old(requests)
        && State() == old(State()).(
             requests := old(requests)[r.value := InventoryRequest(caller.id, productId, requested, None, Pending, None)],
             nextRequestId := nextRequestId)
    {
      if !CanRequest(caller.role) {
        return Err(Forbidden);
      }
      if requested <= 0 || productId !in products {
        return Err(ConstraintViolation);
      }
      var id := nextRequestId;
      requests := requests[id := InventoryRequest(caller.id, productId, requested, None, Pending, None)];
      nextRequestId := nextRequestId + 1;
      r := Ok(id);
    }

    /**
     * `PATCH /api/inventory-requests/:id/approve`: only a pending request is
     * approved; its product's stock grows by the approved quantity.
     */
    method ApproveRequest(caller: Caller, id: RequestId, given: Option<int>) returns (r: Result<InventoryRequest, Failure>)
      requires Valid()
      modifies this
      ensures Valid()
      ensures forall q :: q in old(requests) ==> q in requests && LifecycleStep(old(requests)[q], requests[q])
      ensures r == Err(Forbidden) <==> !IsStaff(caller.role)
      ensures r == Err(NotFound) <==>
        IsStaff(caller.role) && (id !in old(requests) || old(requests)[id].status != Pending)
      ensures r.Ok? <==> IsStaff(caller.role) && id in old(requests) && old(requests)[id].status == Pending
      ensures r.Err? ==> State() == old(State())
      ensures r.Ok? ==>
        var before := old(requests)[id];
        var q := ApprovedQuantity(given, before.requested);
        var p := old(products)[before.productId];
        && r.value == before.(status := Approved, approved := Some(q))
        && LifecycleStep(before, r.value)
        && State() == old(State()).(
             requests := old(requests)[id := r.value],
             products := old(products)[before.productId := p.(stock := p.stock + q)])
    {
      if !IsStaff(caller.role) {
        return Err(Forbidden);
      }
      if id !in requests || requests[id].status != Pending {
        return Err(NotFound);
      }
      var request := requests[id];
      var quantity := ApprovedQuantity(given, request.requested);
      var updated := request.(status := Approved, approved := Some(quantity));
      requests := requests[id := updated];
      var product := products[request.productId];
      products := products[request.productId := product.(stock := product.stock + quantity)];
      RowUpdateKeepsConsistent(old(State()), State());
      r := Ok(updated);
    }

    /**
     * `PATCH /api/inventory-requests/:id/reject`: only a pending request is
     * rejected, with the reason or the default note; stock is not touched.
     */
    method RejectRequest(caller: Caller, id: RequestId, reason: Option<string>) returns (r: Result<InventoryRequest, Failure>)
      requires Valid()
      modifies this
      ensures Valid()
      ensures forall q :: q in old(requests) ==> q in requests && LifecycleStep(old(requests)[q], requests[q])
      ensures r == Err(Forbidden) <==> !IsStaff(caller.role)
      ensures r == Err(NotFound) <==>
        IsStaff(caller.role) && (id !in old(requests) || old(requests)[id].status != Pending)
      ensures r.Ok? <==> IsStaff(caller.role) && id in old(requests) && old(requests)[id].status == Pending
      ensures r.Err? ==> State() == old(State())
      ensures r.Ok? ==>
        && r.value == old(requests)[id].(status := Rejected, notes := Some(RejectionNote(reason)))
        && LifecycleStep(old(requests)[id], r.value)
        && State() == old(State()).(requests := old(requests)[id := r.value])
    {
      if !IsStaff(caller.role) {
        return Err(Forbidden);
      }
      if id !in requests || requests[id].status != Pending {
        return Err(NotFound);
      }
      var updated := requests[id].(status := Rejected, notes := Some(RejectionNote(reason)));
      requests := requests[id := updated];
      RowUpdateKeepsConsistent(old(State()), State());
      r := Ok(updated);
    }

    /**
     * `DELETE /api/messages/:id`: a soft delete by staff or by the sender; the
     * message then disappears from every listing.
     */
    method DeleteMessage(caller: Caller, id: MessageId) returns (r: Result<Message, Failure>)
      requires Valid()
      modifies this
      ensures Valid()
      ensures r == Err(NotFound) <==> id !in old(messages)
      ensures r == Err(Forbidden) <==> id in old(messages) && !CanDeleteMessage(caller, old(messages)[id])
      ensures r.Ok? <==> id in old(messages) && CanDeleteMessage(caller, old(messages)[id])
      ensures r.Err? ==> State() == old(State())
      ensures r.Ok? ==>
        && r.value == old(messages)[id].(state := Deleted(caller.id))
        && (forall viewer :: !MessageListed(viewer, r.value))
        && State() == old(State()).(messages := old(messages)[id := r.value])
    {
      if id !in messages {
        return Err(NotFound);
      }
      if !CanDeleteMessage(caller, messages[id]) {
        return Err(Forbidden);
      }
      var updated := messages[id].(state := Deleted(caller.id));
      messages := messages[id := updated];
      RowUpdateKeepsConsistent(old(State()), State());
      r := Ok(updated);
    }
  }

  /**
   * Approving the same request twice: the second call is refused and the
   * stock has grown exactly once.
   */
  method ApproveTwice(s: Store, caller: Caller, id: RequestId, given: Option<int>)
    returns (first: Result<InventoryRequest, Failure>, second: Result<InventoryRequest, Failure>)
    requires s.Valid()
    modifies s
    ensures s.Valid()
    ensures first.Ok? ==> second == Err(NotFound)
    ensures first.Ok? ==> id in old(s.requests) && old(s.requests)[id].productId in old(s.products)
    ensures first.Ok? && id in old(s.requests) && old(s.requests)[id].productId in old(s.products) ==>
      var p := old(s.requests)[id].productId;
      s.products == old(s.products)[p := old(s.products)[p].(stock := old(s.products)[p].stock
                                       + ApprovedQuantity(given, old(s.requests)[id].requested))]
    ensures first.Err? ==> s.State() == old(s.State())
  {
    first := s.ApproveRequest(caller, id, given);
    second := s.ApproveRequest(caller, id, given);
  }
}
