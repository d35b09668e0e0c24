/**
 * Runs of the handlers on small concrete stores, each stating the outcome
 * the handlers give for it.
 */
module Scenarios {
  import opened Domain
  import opened OrderPlacement
  import opened Inventory
  import opened Store

  /** Tent `A-01` and one product at 500.00 with the given stock. */
  method Festival(stock: int) returns (s: Store)
    ensures fresh(s) && s.Valid()
    ensures s.State() == Tables(map[1 := Product("Neko-Active", "", 50000, stock, true)],
                                map[1 := Tent("A-01", true)], map[], [], map[], map[], 1, 1)
  {
    s := new Store(map[1 := Product("Neko-Active", "", 50000, stock, true)], map[1 := Tent("A-01", true)], map[]);
  }

  /** Three units of a product at 500.00 with 10 in stock: a total of 1500.00 and 7 left. */
  method OrderWithinStock() returns (r: Result<OrderId, Failure>, total: int, left: int)
    ensures r.Ok? && total == 150000 && left == 7
  {
    var s := Festival(10);
    var cart := [CartLine(1, 3)];
    assert IsActiveTent(s.tents, 1, "A-01");
    assert cart[..0] == [];
    assert LineCheck(s.products, cart[0]) == None;
    r := s.PlaceOrder("A-01", cart, "sbp");
    total := s.orders[r.value].total;
    left := s.products[1].stock;
  }

  /** Five units with 2 in stock: refused with one error, no order, stock still 2. */
  method OrderBeyondStock() returns (r: Result<OrderId, Failure>, orders: nat, left: int)
    ensures r == Err(StockRejected([InsufficientStock(1, 2, 5)])) && orders == 0 && left == 2
  {
    var s := Festival(2);
    var cart := [CartLine(1, 5)];
    assert IsActiveTent(s.tents, 1, "A-01");
    assert cart[..0] == [];
    assert StockErrors(s.products, cart) == [InsufficientStock(1, 2, 5)];
    r := s.PlaceOrder("A-01", cart, "sbp");
    orders := |s.orders|;
    left := s.products[1].stock;
  }

  /**
   * Two lines of 2 units each for a product with 3 in stock: each line passes
   * on its own, so the order is accepted and the stock ends at -1.
   */
  method OrderDuplicateLines() returns (r: Result<OrderId, Failure>, left: int)
    ensures r.Ok? && left == -1
  {
    var s := Festival(3);
    var cart := [CartLine(1, 2), CartLine(1, 2)];
    assert IsActiveTent(s.tents, 1, "A-01");
    DuplicateLinesOversell();
    r := s.PlaceOrder("A-01", cart, "sbp");
    left := s.products[1].stock;
  }

  /** A courier asks for 50, an admin approves 40: stock grows by 40 and a second approval is refused. */
  method ApproveReplenishment() returns (first: Result<InventoryRequest, Failure>, second: Result<InventoryRequest, Failure>, left: int)
    ensures first.Ok? && first.value.status == Approved && first.value.approved == Some(40)
    ensures second == Err(NotFound) && left == 50
  {
    var s := Festival(10);
    var id := s.CreateRequest(Caller(2, Courier), 1, 50);
    first := s.ApproveRequest(Caller(1, Admin), id.value, Some(40));
    second := s.ApproveRequest(Caller(1, Admin), id.value, Some(40));
    left := s.products[1].stock;
  }
}
