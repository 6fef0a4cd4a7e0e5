/** `OrderService`, the order use case of the e-commerce core. Its two ports
    become state of the service: the order repository is a map from order id
    to order, and the notification service is an append-only log of the
    notifications sent. */
module OrderUseCase {
  import opened Wrappers
  import opened JavaTypes
  import opened OrderModel

  /** One call on the `NotificationService` port. */
  datatype Notification =
    | OrderConfirmation(order: Order)
    | ShippingNotification(order: Order)
    | DeliveryNotification(order: Order)

  /** `OrderNotFoundException`, carrying the id that was looked up. */
  datatype OrderError = OrderNotFound(orderId: Uuid)

  /** The notifications `updateOrderStatus` sends after saving `saved` with `status`. */
  function StatusNotifications(status: OrderStatus, saved: Order): (r: seq<Notification>)
    ensures |r| <= 1
    ensures (r != [] && r[0].ShippingNotification?) <==> status == Shipped
    ensures (r != [] && r[0].DeliveryNotification?) <==> status == Delivered
    ensures r != [] ==> !r[0].OrderConfirmation? && r[0].order == saved
  {
    if status == Shipped then [ShippingNotification(saved)]
    else if status == Delivered then [DeliveryNotification(saved)]
    else []
  }

  class OrderService {
    /** The `OrderRepository` port: the stored orders by id. */
    var orders: map<Uuid, Order>
    /** The `NotificationService` port: every notification sent, oldest first. */
    var notifications: seq<Notification>

    /** The repository stores each order under its own id. */
    ghost predicate Valid()
      reads this
    {
      forall id :: id in orders ==> orders[id].id == id
    }

    constructor (initialOrders: map<Uuid, Order>)
      requires forall id :: id in initialOrders ==> initialOrders[id].id == id
      ensures Valid()
      ensures orders == initialOrders && notifications == []
    {
      orders := initialOrders;
      notifications := [];
    }

    /** `OrderRepository.save`: store the order under its id and return it. */
    method Save(order: Order) returns (saved: Order)
      requires Valid()
      modifies this`orders
      ensures Valid()
      ensures saved == order
      ensures orders == old(orders)[order.id := order]
    {
      orders := orders[order.id := order];
      saved := order;
    }

    /** Append one call to the notification log. */
    method Notify(notification: Notification)
      modifies this`notifications
      ensures notifications == old(notifications) + [notification]
    {
      notifications := notifications + [notification];
    }

    /** `createOrder`: a PENDING order with a fresh id (`newId`, the value of
        `UUID.randomUUID()`), the creation time `now`, and the sum of the item
        totals; saved once and confirmed once. */
    method CreateOrder(customerId: Uuid, items: seq<OrderItem>, newId: Uuid, now: Timestamp)
      returns (savedOrder: Order)
      requires Valid()
      modifies this
      ensures Valid()
      ensures savedOrder == Order(newId, customerId, items, OrderTotal(items), Pending, now)
      ensures orders == old(orders)[newId := savedOrder]
      ensures notifications == old(notifications) + [OrderConfirmation(savedOrder)]
    {
      var totalAmount := OrderTotal(items);
      var order := Order(newId, customerId, items, totalAmount, Pending, now);
      savedOrder := Save(order);
      Notify(OrderConfirmation(savedOrder));
    }

    /** `getOrder`: the stored order, or `OrderNotFoundException`. */
    method GetOrder(orderId: Uuid) returns (r: Result<Order, OrderError>)
      ensures r.Success? <==> orderId in orders
      ensures r.Success? ==> r.value == orders[orderId]
      ensures r.Failure? ==> r.error == OrderNotFound(orderId)
    {
      if orderId in orders {
        r := Success(orders[orderId]);
      } else {
        r := Failure(OrderNotFound(orderId));
      }
    }

    /** `updateOrderStatus`: look the order up (failing before any write), save
        it with the new status, then notify for SHIPPED and DELIVERED only. */
    method UpdateOrderStatus(orderId: Uuid, newStatus: OrderStatus) returns (r: Result<Order, OrderError>)
      requires Valid()
      modifies this
      ensures Valid()
      ensures orderId !in old(orders) ==>
        r == Failure(OrderNotFound(orderId)) && orders == old(orders) && notifications == old(notifications)
      ensures orderId in old(orders) ==>
        && r == Success(UpdateStatus(old(orders)[orderId], newStatus))
        && orders == old(orders)[orderId := r.value]
        && notifications == old(notifications) + StatusNotifications(newStatus, r.value)
    {
      var found := GetOrder(orderId);
      if found.Failure? {
        return Failure(found.error);
      }
      var updatedOrder := UpdateStatus(found.value, newStatus);
      var savedOrder := Save(updatedOrder);
      if newStatus == Shipped {
        Notify(ShippingNotification(savedOrder));
      } else if newStatus == Delivered {
        Notify(DeliveryNotification(savedOrder));
      }
      r := Success(savedOrder);
    }

    /** `getCustomerOrders`: the repository's `findByCustomerId`, returned as it is. */
    method GetCustomerOrders(customerId: Uuid) returns (r: set<Order>)
      ensures forall o :: o in r <==> o in orders.Values && o.customerId == customerId
    {
      r := set id | id in orders && orders[id].customerId == customerId :: orders[id];
    }
  }
}
