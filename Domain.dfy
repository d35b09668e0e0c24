/**
 * Rows of the festival order backend's tables and the values its handlers
 * exchange. Identifiers are the tables' serial keys; money is in integer cents.
 */
module Domain {

  datatype Option<+T> = None | Some(value: T)

  datatype Result<+T, +E> = Ok(value: T) | Err(error: E)

  type UserId = nat
  type ProductId = nat
  type TentId = nat
  type OrderId = nat
  type RequestId = nat
  type MessageId = nat

  /** The role claim carried by the caller's token; `Unknown` stands for any other string. */
  datatype Role = Admin | Operator | Courier | Unknown

  /** The authenticated caller, as decoded from the bearer token. */
  datatype Caller = Caller(id: UserId, role: Role)

  /** Admins and operators manage the catalog, tents and inventory requests. */
  predicate IsStaff(role: Role) {
    role == Admin || role == Operator
  }

  /** A row of `products`; `price` is in cents. */
  datatype Product = Product(name: string, description: string, price: int, stock: int, active: bool)

  /** A row of `tents`; `number` is unique across the table. */
  datatype Tent = Tent(number: string, active: bool)

  /** A row of `orders`; `status` and `paymentStatus` are free-form strings. */
  datatype Order = Order(
    tentId: TentId,
    total: int,
    status: string,
    paymentStatus: string,
    paymentMethod: string,
    courier: Option<UserId>)

  /** A row of `order_items`: the product's price is copied at order time. */
  datatype OrderItem = OrderItem(orderId: OrderId, productId: ProductId, quantity: int, unitPrice: int)

  /** One line of a cart as the client sends it: no price, only a product and a quantity. */
  datatype CartLine = CartLine(productId: ProductId, quantity: int)

  /** Why one cart line was refused. */
  datatype LineError =
    | Unavailable(productId: ProductId)
    | InsufficientStock(productId: ProductId, available: int, requested: int)

  datatype RequestStatus = Pending | Approved | Rejected

  /** A row of `inventory_requests`. */
  datatype InventoryRequest = InventoryRequest(
    courier: UserId,
    productId: ProductId,
    requested: int,
    approved: Option<int>,
    status: RequestStatus,
    notes: Option<string>)

  /** Soft-delete state of a message: `is_deleted` together with `deleted_by`. */
  datatype MessageState = Live | Deleted(deletedBy: UserId)

  /** A row of `messages`; a missing receiver means a broadcast. */
  datatype Message = Message(
    sender: UserId,
    receiver: Option<UserId>,
    replyTo: Option<MessageId>,
    text: string,
    state: MessageState)

  /** The error kinds the handlers answer with (403, 404, 400, 500). */
  datatype Failure =
    | Forbidden
    | NotFound
    | InvalidOperation
    | TentHasOrders
    | StockRejected(errors: seq<LineError>)
    | ConstraintViolation
}
