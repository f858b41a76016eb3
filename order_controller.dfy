/** The handlers of orderController.js over an append-only ledger. */
module OrderController {
  import opened Wrappers
  import opened Seqs
  import opened OrderModel

  const FieldsRequired := "All fields are required"
  const ServerError := "Server error"
  const OrderPlaced := "Order Placed"
  const NoOrdersFound := "No orders found"

  /** The guard of createOrder: `userId` and `amount` truthy, `items`
      present. An amount of 0 is refused, an empty list of items is not,
      and the address is not looked at. */
  predicate RequestComplete(userId: string, items: Option<seq<OrderItem>>, amount: real) {
    userId != "" && items.Some? && amount != 0.0
  }

  /** The order createOrder saves, or the reply when it saves none: 400 when
      the guard fails, 500 when the schema refuses the record (a missing
      address, an item without id or name), as the save then throws. */
  function NewOrder(userId: string, items: Option<seq<OrderItem>>, amount: real, address: Option<Address>, now: int)
    : (r: Result<Order, Failure>)
    ensures r == Err(BadRequest(FieldsRequired)) <==> !RequestComplete(userId, items, amount)
    ensures r.Ok? <==>
      RequestComplete(userId, items, amount) && address.Some?
      && forall i :: 0 <= i < |items.value| ==> ItemConforms(items.value[i])
    ensures r.Err? && r != Err(BadRequest(FieldsRequired)) ==> r == Err(Internal(ServerError))
    ensures r.Ok? ==>
      r.value.userId == userId && r.value.items == items.value && r.value.address == address.value
      && r.value.amount == amount && r.value.date == now && Conforms(r.value)
  {
    if !RequestComplete(userId, items, amount) then Err(BadRequest(FieldsRequired))
    else if address.None? then Err(Internal(ServerError))
    else
      var order := Order(userId, items.value, address.value, amount, now);
      if Conforms(order) then Ok(order) else Err(Internal(ServerError))
  }

  /** The amount is taken as sent: a complete request is stored with its
      own amount whatever the total of its items (the total is never
      recomputed), and an empty item list passes. */
  lemma AmountIsNotRecomputed(userId: string, items: seq<OrderItem>, amount: real, address: Address, now: int)
    requires RequestComplete(userId, Some(items), amount)
    requires forall i :: 0 <= i < |items| ==> ItemConforms(items[i])
    ensures NewOrder(userId, Some(items), amount, Some(address), now).Ok?
    ensures NewOrder(userId, Some(items), amount, Some(address), now).value.amount == amount
    ensures NewOrder(userId, Some([]), amount, Some(address), now).Ok?
  {
  }

  /** The guard does not look at the address or the items' fields, but the
      schema does: a complete request without an address, or with an item
      lacking its id or name, fails at the save with 500. */
  lemma SchemaRefusesIncomplete(userId: string, items: seq<OrderItem>, amount: real, address: Address, now: int)
    requires RequestComplete(userId, Some(items), amount)
    ensures NewOrder(userId, Some(items), amount, None, now) == Err(Internal(ServerError))
    ensures (exists i :: 0 <= i < |items| && (items[i].id == "" || items[i].name == "")) ==>
      NewOrder(userId, Some(items), amount, Some(address), now) == Err(Internal(ServerError))
  {
  }

  predicate OwnedBy(order: Order, userId: string) {
    order.userId == userId
  }

  function Owner(userId: string): Order -> bool {
    (o: Order) => OwnedBy(o, userId)
  }

  /** `Order.find({ userId })`: the user's orders in ledger order. */
  function OrdersOf(orders: seq<Order>, userId: string): seq<Order> {
    Filter(orders, Owner(userId))
  }

  /** The query returns exactly the orders whose userId matches. */
  lemma OrdersOfExact(orders: seq<Order>, userId: string)
    ensures forall o :: o in OrdersOf(orders, userId) <==> o in orders && o.userId == userId
  {
    forall o ensures o in OrdersOf(orders, userId) <==> o in orders && o.userId == userId {
      FilterMembership(orders, Owner(userId), o);
    }
  }

  /** After an order is appended its owner's list ends with it and every
      other user's list is unchanged. */
  lemma OrdersOfAppend(orders: seq<Order>, order: Order, userId: string)
    ensures OrdersOf(orders + [order], userId) ==
      if order.userId == userId then OrdersOf(orders, userId) + [order] else OrdersOf(orders, userId)
  {
    FilterConcat(orders, [order], Owner(userId));
    assert [order][1..] == [];
  }

  class OrderLedger {
    var orders: seq<Order>

    constructor (initial: seq<Order>)
      ensures orders == initial
    {
      orders := initial;
    }

    /** createOrder: appends at most one order and never alters the stored
        ones; carts are not touched (the store holds no carts). */
    method CreateOrder(userId: string, items: Option<seq<OrderItem>>, amount: real, address: Option<Address>, now: int)
      returns (r: Result<string, Failure>)
      modifies this
      ensures var n := NewOrder(userId, items, amount, address, now);
        && (r.Ok? <==> n.Ok?)
        && (r.Ok? ==> r.value == OrderPlaced && orders == old(orders) + [n.value])
        && (r.Err? ==> r.error == n.error && orders == old(orders))
      ensures old(orders) <= orders
    {
      var n := NewOrder(userId, items, amount, address, now);
      if n.Err? {
        return Err(n.error);
      }
      orders := orders + [n.value];
      r := Ok(OrderPlaced);
    }

    /** getUserOrders: the user's orders, or 404 when there are none. */
    method GetUserOrders(userId: string) returns (r: Result<seq<Order>, Failure>)
      ensures r.Err? <==> forall i :: 0 <= i < |orders| ==> orders[i].userId != userId
      ensures r.Err? ==> r.error == NotFound(NoOrdersFound)
      ensures r.Ok? ==> r.value == OrdersOf(orders, userId) && r.value != []
    {
      var found := OrdersOf(orders, userId);
      OrdersOfExact(orders, userId);
      if |found| == 0 {
        forall i | 0 <= i < |orders| ensures orders[i].userId != userId {
          assert orders[i] in orders;
        }
        return Err(NotFound(NoOrdersFound));
      }
      assert found[0] in found;
      r := Ok(found);
    }
  }
}
