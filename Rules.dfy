/**
 * Stock arithmetic and the product listing filter of the catalog handlers.
 */
module Catalog {
  import opened Domain

  /** `Math.max(0, v)` and `GREATEST(0, v)`: the least non-negative value not below `v`. */
  function Clamp(v: int): (r: int)
    ensures r >= 0 && r >= v
    ensures r == 0 || r == v
  {
    if v < 0 then 0 else v
  }

  /**
   * The stock written by `PATCH /api/products/:id/stock`, or `None` when the
   * operation is none of `set`, `add` and `subtract` (a 400 answer).
   */
  function PatchedStock(operation: string, stock: int, amount: int, newValue: int): (r: Option<int>)
    ensures r.Some? <==> operation in ["set", "add", "subtract"]
    ensures r.Some? ==> r.value >= 0
    ensures operation == "set" ==> r == Some(Clamp(newValue))
    ensures operation == "add" ==> r == Some(Clamp(stock + amount))
    ensures operation == "subtract" ==> r == Some(Clamp(stock - amount))
  {
    if operation == "set" then Some(Clamp(newValue))
    else if operation == "add" then Some(Clamp(stock + amount))
    else if operation == "subtract" then Some(Clamp(stock - amount))
    else None
  }

  /** A subtraction undoes an addition of the same non-negative amount to a non-negative stock. */
  lemma AddThenSubtractRestores(stock: int, amount: int)
    requires stock >= 0 && amount >= 0
    ensures PatchedStock("subtract", PatchedStock("add", stock, amount, 0).value, amount, 0) == Some(stock)
  {
  }

  /**
   * Whether `GET /api/products` lists the product: staff (a valid admin or
   * operator token) see every row, everyone else only active rows in stock.
   */
  predicate ProductListed(viewer: Option<Role>, p: Product): (r: bool)
    ensures viewer.Some? && IsStaff(viewer.value) ==> r
    ensures !p.active || p.stock <= 0 ==> (r <==> viewer.Some? && IsStaff(viewer.value))
    ensures !(viewer.Some? && IsStaff(viewer.value)) ==> (r <==> p.active && p.stock > 0)
  {
    (viewer.Some? && IsStaff(viewer.value)) || (p.active && p.stock > 0)
  }
}

/**
 * `PUT /api/orders/:id/status` and the orders a courier may list.
 */
module OrderStatus {
  import opened Domain
  import opened Columns

  const InDelivery := "in_delivery"

  /** A courier moving an order to `in_delivery` takes the order. */
  predicate IsCourierClaim(caller: Caller, status: string) {
    caller.role == Courier && status == InDelivery
  }

  /** `GET /api/orders`: a courier sees the unassigned orders and their own; other roles see all. */
  predicate OrderListed(viewer: Caller, o: Order): (r: bool)
    ensures viewer.role != Courier ==> r
    ensures viewer.role == Courier ==> (r <==> o.courier.None? || o.courier.value == viewer.id)
  {
    viewer.role != Courier || o.courier == None || o.courier == Some(viewer.id)
  }

  /**
   * The order row after a status update by `caller`. Only the status and, on a
   * courier claim, the courier change; a claim hides the order from every other
   * courier, any other update leaves every caller's view of the order as it was.
   */
  function StatusUpdated(o: Order, caller: Caller, status: string): (r: Order)
    ensures r == o.(status := status, courier := r.courier)
    ensures IsCourierClaim(caller, status) ==> r.courier == Some(caller.id)
    ensures !IsCourierClaim(caller, status) ==> r.courier == o.courier
    ensures IsCourierClaim(caller, status) ==>
      forall v: Caller :: v.role == Courier ==> (OrderListed(v, r) <==> v.id == caller.id)
    ensures !IsCourierClaim(caller, status) ==> forall v: Caller :: OrderListed(v, r) == OrderListed(v, o)
  {
    if IsCourierClaim(caller, status) then o.(status := status, courier := Some(caller.id))
    else o.(status := status)
  }

  /**
   * Cutting a status to the column width never makes it `in_delivery` or
   * stops it being `in_delivery`, so the claim test on the request body and
   * on the stored status agree.
   */
  lemma StoredStatusClaims(caller: Caller, status: string)
    requires ColumnValue(status, StatusWidth).Some?
    ensures IsCourierClaim(caller, ColumnValue(status, StatusWidth).value) <==> IsCourierClaim(caller, status)
  {
    if |status| > StatusWidth {
      assert |InDelivery| == 11;
    }
  }

  /** Of two couriers claiming the same order one after the other, the later one holds it. */
  lemma LastClaimWins(o: Order, first: Caller, second: Caller)
    requires first.role == Courier && second.role == Courier
    ensures StatusUpdated(StatusUpdated(o, first, InDelivery), second, InDelivery).courier == Some(second.id)
    ensures StatusUpdated(StatusUpdated(o, first, InDelivery), second, InDelivery).status == InDelivery
  {
  }
}

/**
 * The inventory replenishment request lifecycle: pending, then approved or
 * rejected exactly once.
 */
module Inventory {
  import opened Domain

  /** The note stored when a rejection gives no reason. */
  const DefaultRejectionNote := "Запрос отклонен"

  /** Who may file a request: couriers, admins and operators. */
  predicate CanRequest(role: Role): (r: bool)
    ensures r <==> role != Unknown
  {
    role == Courier || IsStaff(role)
  }

  /**
   * `approved_quantity || requested_quantity`: the quantity given by the
   * approver unless it is absent or zero, in which case the requested one.
   */
  function ApprovedQuantity(given: Option<int>, requested: int): (q: int)
    ensures given.Some? && given.value != 0 ==> q == given.value
    ensures given.None? || given.value == 0 ==> q == requested
    ensures requested > 0 && (given.None? || given.value >= 0) ==> q > 0
  {
    if given.Some? && given.value != 0 then given.value else requested
  }

  /** `reason || 'Запрос отклонен'`: the reason unless absent or empty, otherwise the default note. */
  function RejectionNote(reason: Option<string>): (note: string)
    ensures reason.Some? && reason.value != "" ==> note == reason.value
    ensures reason.None? || reason.value == "" ==> note == DefaultRejectionNote
    ensures note != ""
  {
    if reason.Some? && reason.value != "" then reason.value else DefaultRejectionNote
  }

  /**
   * What may happen to a stored request in one step: nothing, or a pending
   * request is decided, which changes its status, approved quantity and notes only.
   */
  predicate LifecycleStep(before: InventoryRequest, after: InventoryRequest) {
    before == after
    || (before.status == Pending && after.status != Pending
        && after == before.(status := after.status, approved := after.approved, notes := after.notes))
  }

  /** A decided request is terminal: no step changes it again. */
  lemma DecidedIsTerminal(before: InventoryRequest, after: InventoryRequest)
    requires before.status != Pending && LifecycleStep(before, after)
    ensures after == before
  {
  }
}

/**
 * Message visibility and soft deletion.
 */
module Messaging {
  import opened Domain

  /** `DELETE /api/messages/:id`: staff may delete any message, others only their own. */
  predicate CanDeleteMessage(caller: Caller, m: Message): (r: bool)
    ensures IsStaff(caller.role) ==> r
    ensures !IsStaff(caller.role) ==> (r <==> m.sender == caller.id)
  {
    IsStaff(caller.role) || m.sender == caller.id
  }

  /**
   * `GET /api/messages`: a live message that the viewer sent, that was sent to
   * the viewer, or that was broadcast.
   */
  predicate MessageListed(viewer: UserId, m: Message): (r: bool)
    ensures m.state.Deleted? ==> !r
    ensures m.state == Live ==>
      (r <==> m.sender == viewer || m.receiver.None? || m.receiver.value == viewer)
  {
    (m.sender == viewer || m.receiver == Some(viewer) || m.receiver == None) && m.state == Live
  }
}
