/** The records of orderModel.js: an order snapshots its line items, the
    delivery address, the amount and the time it was placed. */
module OrderModel {
  import opened Amounts

  /** The delivery form the storefront sends as the order's address. */
  datatype Address = Address(
    firstName: string, lastName: string, email: string, street: string, apartment: string,
    city: string, state: string, zipcode: string, country: string, phone: string,
    deliveryNotes: string)

  datatype OrderItem = OrderItem(id: string, name: string, quantity: int, price: real)

  datatype Order = Order(userId: string, items: seq<OrderItem>, address: Address, amount: real, date: int)

  /** A required String path refuses the empty string; the Number paths
      `quantity` and `price` only need a number, which the types give. */
  predicate ItemConforms(item: OrderItem) {
    item.id != "" && item.name != ""
  }

  /** The schema's required paths: a non-empty `userId` and conforming
      items. `items`, `address`, `amount` and `date` are present by
      construction of the record. */
  predicate Conforms(order: Order) {
    order.userId != "" && forall i :: 0 <= i < |order.items| ==> ItemConforms(order.items[i])
  }

  /** The sum of price times quantity over a list of line items. */
  function ItemsTotal(items: seq<OrderItem>): real {
    if items == [] then 0.0 else Scale(items[0].price, items[0].quantity) + ItemsTotal(items[1..])
  }
}
