/** The order settlement flow across the two sides: what the server makes
    of the order the checkout page sends, and the scenario of placing an
    order and then clearing the cart. */
module Settlement {
  import opened Wrappers
  import opened CartModel
  import opened CartTotals
  import opened OrderModel
  import opened OrderController
  import opened Checkout
  import CartController

  /** The order schema keeps `id`, `name`, `quantity` and `price` of each
      cart entry it receives and drops the rest. */
  function LineItems(cart: seq<Entry>): (items: seq<OrderItem>)
    ensures |items| == |cart|
    ensures forall i :: 0 <= i < |cart| ==>
      items[i] == OrderItem(cart[i].id, cart[i].name, cart[i].quantity, cart[i].price)
  {
    if cart == [] then [] else [OrderItem(cart[0].id, cart[0].name, cart[0].quantity, cart[0].price)] + LineItems(cart[1..])
  }

  /** The stored line items add up to the page's total. */
  lemma {:induction false} LineItemsTotal(cart: seq<Entry>)
    ensures ItemsTotal(LineItems(cart)) == Total(cart)
  {
    if cart != [] {
      LineItemsTotal(cart[1..]);
      assert LineItems(cart)[1..] == LineItems(cart[1..]);
    }
  }

  /** When the form is complete, the page's total is the total of its cart
      and that total is not 0, the server stores the order as sent: the
      form as address, the cart's line items, and an amount equal to their
      total. A total of 0 (an empty cart, or only free items) is refused
      with 400, however the form is filled. */
  lemma SubmittedOrderIsStored(userId: string, form: Address, cart: seq<Entry>, now: int)
    requires userId != ""
    requires forall i :: 0 <= i < |cart| ==> cart[i].id != "" && cart[i].name != ""
    ensures Total(cart) == 0.0 ==>
      NewOrder(userId, Some(LineItems(cart)), Total(cart), Some(form), now) == Err(BadRequest(FieldsRequired))
    ensures Total(cart) != 0.0 ==>
      var r := NewOrder(userId, Some(LineItems(cart)), Total(cart), Some(form), now);
      r == Ok(Order(userId, LineItems(cart), form, Total(cart), now)) && ItemsTotal(r.value.items) == r.value.amount
  {
    LineItemsTotal(cart);
  }

  /** Placing a two-item order and then clearing the cart:
      one order with both line items and the sent amount, and an empty
      cart afterwards. */
  method PlaceThenClear(ledger: OrderLedger, store: CartController.CartStore, address: Address, now: int)
    requires "u1" in store.carts
    modifies ledger, store
  {
    var cart := [Entry("m1", "Paracetamol", "https://img/m1.png", 12.5, 2, 0),
                 Entry("m2", "Cetirizine", "https://img/m2.png", 4.75, 1, 0)];
    var items := LineItems(cart);
    var placed := ledger.CreateOrder("u1", Some(items), 29.75, Some(address), now);
    assert placed == Ok(OrderPlaced);
    assert ledger.orders[|ledger.orders| - 1] == Order("u1", items, address, 29.75, now);
    assert |items| == 2;
    var cleared := store.ClearCart("u1");
    assert cleared == Ok([]) && store.carts["u1"] == [];
  }
}
