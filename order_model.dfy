/** The immutable order entities of the e-commerce core: `OrderItem` and
    `Order`. Their getters are the datatype destructors, so each returns
    exactly the value the constructor was given. */
module OrderModel {
  import opened JavaTypes

  /** `OrderStatus`. The enum's declaration is not part of this model: the core
      only names PENDING, SHIPPED and DELIVERED, every other constant is `Other`. */
  datatype OrderStatus = Pending | Shipped | Delivered | Other(name: string)

  /** `OrderItem`; the `BigDecimal` unit price is an exact `real`. */
  datatype OrderItem = OrderItem(productId: Uuid, productName: string, quantity: Int32, unitPrice: real)

  /** `Order`; `LocalDateTime` is an opaque instant. */
  datatype Order = Order(
    id: Uuid,
    customerId: Uuid,
    items: seq<OrderItem>,
    totalAmount: real,
    status: OrderStatus,
    createdAt: Timestamp)

  /** `OrderItem.getTotalPrice`: `unitPrice.multiply(BigDecimal.valueOf(quantity))`.
      There is no sign check on the quantity. */
  function TotalPrice(item: OrderItem): (r: real)
    ensures item.quantity == 0 || item.unitPrice == 0.0 ==> r == 0.0
    ensures item.unitPrice > 0.0 ==> (r > 0.0 <==> item.quantity > 0) && (r < 0.0 <==> item.quantity < 0)
  {
    item.unitPrice * item.quantity as real
  }

  /** `Order.updateStatus`: a new order that differs from the receiver in its status only. */
  function UpdateStatus(order: Order, newStatus: OrderStatus): (r: Order)
    ensures r.status == newStatus
    ensures r.(status := order.status) == order
  {
    Order(order.id, order.customerId, order.items, order.totalAmount, newStatus, order.createdAt)
  }

  /** The total `createOrder` computes: a left fold of `BigDecimal::add` over
      the item totals, starting from zero. */
  function OrderTotal(items: seq<OrderItem>): (r: real)
    ensures items == [] ==> r == 0.0
    ensures (forall i :: 0 <= i < |items| ==> items[i].quantity == 0) ==> r == 0.0
  {
    if items == [] then 0.0 else OrderTotal(items[..|items| - 1]) + TotalPrice(items[|items| - 1])
  }

  // ---------------------------------------------------------------- properties

  /** Updating the status twice keeps only the second status. */
  lemma UpdateStatusLastWins(order: Order, first: OrderStatus, second: OrderStatus)
    ensures UpdateStatus(UpdateStatus(order, first), second) == UpdateStatus(order, second)
  {
  }

  /** Setting the status an order already has yields an equal order. */
  lemma UpdateStatusToSameStatus(order: Order)
    ensures UpdateStatus(order, order.status) == order
  {
  }

  /** The total of a concatenation is the sum of the totals. */
  lemma {:induction false} OrderTotalAppend(a: seq<OrderItem>, b: seq<OrderItem>)
    ensures OrderTotal(a + b) == OrderTotal(a) + OrderTotal(b)
    decreases |b|
  {
    if b == [] {
      assert a + b == a;
    } else {
      var c := b[..|b| - 1];
      assert (a + b)[..|a + b| - 1] == a + c;
      assert (a + b)[|a + b| - 1] == b[|b| - 1];
      OrderTotalAppend(a, c);
    }
  }

  /** The total of one item is that item's total price. */
  lemma OrderTotalOfOne(item: OrderItem)
    ensures OrderTotal([item]) == TotalPrice(item)
  {
    assert [item][..0] == [];
  }

  /** An order of items with no negative quantity and no negative price has a non-negative total. */
  lemma {:induction false} OrderTotalNonNegative(items: seq<OrderItem>)
    requires forall i :: 0 <= i < |items| ==> items[i].quantity >= 0 && items[i].unitPrice >= 0.0
    ensures OrderTotal(items) >= 0.0
  {
    if items != [] {
      OrderTotalNonNegative(items[..|items| - 1]);
      var last := items[|items| - 1];
      assert last.unitPrice * last.quantity as real >= 0.0;
    }
  }
}
