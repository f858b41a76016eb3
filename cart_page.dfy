/** The cart page of the storefront (Cart.jsx): it shows the server's cart
    newest entry first, sends increase, decrease and remove requests, and
    replaces its copy of the cart with whatever the server sends back. */
module CartPage {
  import opened Wrappers
  import opened Seqs
  import opened CartModel
  import opened CartTotals

  datatype Action = IncreaseAction | DecreaseAction | RemoveAction | OtherAction(name: string)

  /** The outcome of a request to the cart endpoints: resolved with the
      server's body, or rejected (an error status or no answer). */
  datatype CartReply = Resolved(success: bool, cartData: seq<Entry>) | Rejected

  datatype CartRequest = CartRequest(endpoint: string, productId: string)

  /** The endpoint an action posts to; none for an unknown action. */
  function Endpoint(action: Action): (r: Option<string>)
    ensures r.None? <==> action.OtherAction?
  {
    match action
    case IncreaseAction => Some("/increase")
    case DecreaseAction => Some("/decrease")
    case RemoveAction => Some("/remove")
    case OtherAction(_) => None
  }

  /** The list is drawn from a reversed copy: newest entry first. */
  function Displayed(cart: seq<Entry>): (r: seq<Entry>)
    ensures |r| == |cart| && multiset(r) == multiset(cart)
    ensures forall i :: 0 <= i < |cart| ==> r[i] == cart[|cart| - 1 - i]
  {
    ReversePermutes(cart);
    Reverse(cart)
  }

  /** The decrease button works only above quantity 1 and while that item
      is not being updated. */
  predicate DecreaseEnabled(item: Entry, updatingId: Option<string>) {
    item.quantity > 1 && updatingId != Some(item.id)
  }

  /** The checkout button works only for a non-empty cart with no update
      in flight. */
  predicate CheckoutEnabled(cart: seq<Entry>, updatingId: Option<string>) {
    |cart| != 0 && updatingId.None?
  }

  /** A decrease the page can send for an entry of a valid server cart is
      always accepted by the server and leaves that entry at one unit less,
      still at least 1. */
  lemma EnabledDecreaseIsAccepted(cart: seq<Entry>, item: Entry, updatingId: Option<string>)
    requires ValidCart(cart) && item in cart && DecreaseEnabled(item, updatingId)
    ensures Decrease(cart, item.id).Ok?
    ensures var k := IndexOf(cart, item.id); cart[k] == item && Decrease(cart, item.id).value[k].quantity == item.quantity - 1 >= 1
  {
    var j :| 0 <= j < |cart| && cart[j] == item;
    var k := IndexOf(cart, item.id);
    assert k == j;
  }

  class CartView {
    var cart: seq<Entry>
    var totalPrice: real
    var updatingId: Option<string>
    var loading: bool

    /** `cart` and `totalPrice` are shared with the other pages. */
    constructor (cart0: seq<Entry>, total0: real)
      ensures cart == cart0 && totalPrice == total0 && updatingId.None? && loading
    {
      cart, totalPrice, updatingId, loading := cart0, total0, None, true;
    }

    /** The fetch on page load. */
    method FetchCart(reply: CartReply)
      modifies this
      ensures reply.Resolved? ==> cart == reply.cartData && totalPrice == Total(reply.cartData)
      ensures reply.Rejected? ==> cart == old(cart) && totalPrice == old(totalPrice)
      ensures updatingId == old(updatingId) && !loading
    {
      if reply.Resolved? {
        cart := reply.cartData;
        totalPrice := Total(reply.cartData);
      }
      loading := false;
    }

    /** `handleQuantityChange`: `reply` is the server's answer to the
        request, when one is sent. */
    method HandleQuantityChange(productId: string, action: Action, reply: CartReply) returns (sent: Option<CartRequest>)
      modifies this
      ensures sent == if action.OtherAction? then None else Some(CartRequest(Endpoint(action).value, productId))
      ensures sent.Some? && reply.Resolved? && reply.success ==>
        cart == reply.cartData && totalPrice == Total(reply.cartData)
      ensures !(sent.Some? && reply.Resolved? && reply.success) ==>
        cart == old(cart) && totalPrice == old(totalPrice)
      ensures updatingId.None? && loading == old(loading)
    {
      updatingId := Some(productId);
      var endpoint: string;
      match action {
        case IncreaseAction => endpoint := "/increase";
        case DecreaseAction => endpoint := "/decrease";
        case RemoveAction => endpoint := "/remove";
        case OtherAction(_) =>
          updatingId := None;
          return None;
      }
      sent := Some(CartRequest(endpoint, productId));
      if reply.Resolved? && reply.success {
        cart := reply.cartData;
        totalPrice := Total(reply.cartData);
      }
      updatingId := None;
    }

    /** A click on an entry's decrease button. */
    method ClickDecrease(item: Entry, reply: CartReply) returns (sent: Option<CartRequest>)
      modifies this
      ensures sent.Some? <==> DecreaseEnabled(item, old(updatingId))
      ensures sent.Some? ==> sent.value == CartRequest("/decrease", item.id) && item.quantity > 1
      ensures sent.Some? && reply.Resolved? && reply.success ==>
        cart == reply.cartData && totalPrice == Total(reply.cartData)
      ensures sent.Some? && !(reply.Resolved? && reply.success) ==>
        cart == old(cart) && totalPrice == old(totalPrice)
      ensures sent.Some? ==> updatingId.None?
      ensures sent.None? ==> cart == old(cart) && totalPrice == old(totalPrice) && updatingId == old(updatingId)
      ensures loading == old(loading)
    {
      if !DecreaseEnabled(item, updatingId) {
        return None;
      }
      sent := HandleQuantityChange(item.id, DecreaseAction, reply);
    }

    /** A click on "Proceed to Checkout": it navigates only when the button
        is enabled. */
    method ClickCheckout() returns (navigates: bool)
      ensures navigates <==> |cart| != 0 && updatingId.None?
    {
      navigates := CheckoutEnabled(cart, updatingId);
    }
  }
}
