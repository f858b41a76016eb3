/** The cart handlers of cartController.js over a store of user carts.
    Each handler looks the user up, finds the entry by a linear scan,
    rewrites that user's cart and replies with the new cart or an error. */
module CartController {
  import opened Wrappers
  import opened CartModel

  const UserNotFound := "User not found"
  const AddFieldsRequired := "All fields (id, name, imageUrl, price, userId) are required"

  /** The guard of addToCart: `id`, `name` and `imageUrl` must be truthy
      (absent is modelled as the empty string) and `price` merely present,
      so a price of 0 passes. */
  predicate AddRequestComplete(id: string, name: string, imageUrl: string, price: Option<real>) {
    id != "" && name != "" && imageUrl != "" && price.Some?
  }

  /** The `findIndex` scan: the first entry whose id matches, or -1. */
  method FindIndex(cart: seq<Entry>, id: string) returns (k: int)
    ensures k == IndexOf(cart, id)
  {
    k := 0;
    while k < |cart|
      invariant 0 <= k <= |cart|
      invariant forall i :: 0 <= i < k ==> cart[i].id != id
    {
      if cart[k].id == id {
        return;
      }
      k := k + 1;
    }
    k := -1;
  }

  /** The users' documents, reduced to their carts. */
  class CartStore {
    var carts: map<string, seq<Entry>>

    /** Every stored cart has unique ids and positive quantities. */
    ghost predicate Valid()
      reads this
    {
      forall u :: u in carts ==> ValidCart(carts[u])
    }

    constructor (initial: map<string, seq<Entry>>)
      requires forall u :: u in initial ==> ValidCart(initial[u])
      ensures carts == initial && Valid()
    {
      carts := initial;
    }

    method AddToCart(userId: string, id: string, name: string, imageUrl: string, price: Option<real>, now: int)
      returns (r: Result<seq<Entry>, Failure>)
      modifies this
      ensures !AddRequestComplete(id, name, imageUrl, price) ==>
        r == Err(BadRequest(AddFieldsRequired)) && carts == old(carts)
      ensures AddRequestComplete(id, name, imageUrl, price) && userId !in old(carts) ==>
        r == Err(NotFound(UserNotFound)) && carts == old(carts)
      ensures AddRequestComplete(id, name, imageUrl, price) && userId in old(carts) ==>
        carts == old(carts)[userId := Merge(old(carts)[userId], id, name, imageUrl, price.value, now)]
        && r == Ok(carts[userId])
      ensures old(Valid()) ==> Valid()
    {
      if !AddRequestComplete(id, name, imageUrl, price) {
        return Err(BadRequest(AddFieldsRequired));
      }
      if userId !in carts {
        return Err(NotFound(UserNotFound));
      }
      var cart := carts[userId];
      var k := FindIndex(cart, id);
      if k != -1 {
        cart := cart[k := cart[k].(quantity := cart[k].quantity + 1)];
      } else {
        cart := cart + [Entry(id, name, imageUrl, price.value, 1, now)];
      }
      carts := carts[userId := cart];
      r := Ok(cart);
    }

    method IncreaseQuantity(userId: string, productId: string) returns (r: Result<seq<Entry>, Failure>)
      modifies this
      ensures userId !in old(carts) ==> r == Err(NotFound(UserNotFound))
      ensures userId in old(carts) ==> r == Increase(old(carts)[userId], productId)
      ensures carts == if r.Ok? then old(carts)[userId := r.value] else old(carts)
      ensures old(Valid()) ==> Valid()
    {
      if userId !in carts {
        return Err(NotFound(UserNotFound));
      }
      var cart := carts[userId];
      var k := FindIndex(cart, productId);
      if k == -1 {
        return Err(NotFound(ItemNotInCart));
      }
      cart := cart[k := cart[k].(quantity := cart[k].quantity + 1)];
      carts := carts[userId := cart];
      r := Ok(cart);
    }

    method DecreaseQuantity(userId: string, productId: string) returns (r: Result<seq<Entry>, Failure>)
      modifies this
      ensures userId !in old(carts) ==> r == Err(NotFound(UserNotFound))
      ensures userId in old(carts) ==> r == Decrease(old(carts)[userId], productId)
      ensures carts == if r.Ok? then old(carts)[userId := r.value] else old(carts)
      ensures old(Valid()) ==> Valid()
    {
      if userId !in carts {
        return Err(NotFound(UserNotFound));
      }
      var cart := carts[userId];
      var k := FindIndex(cart, productId);
      if k == -1 {
        return Err(NotFound(ItemNotInCart));
      }
      if cart[k].quantity > 1 {
        cart := cart[k := cart[k].(quantity := cart[k].quantity - 1)];
        carts := carts[userId := cart];
        r := Ok(cart);
      } else {
        r := Err(BadRequest(QuantityBelowOne));
      }
    }

    method RemoveFromCart(userId: string, productId: string) returns (r: Result<seq<Entry>, Failure>)
      modifies this
      ensures userId !in old(carts) ==> r == Err(NotFound(UserNotFound)) && carts == old(carts)
      ensures userId in old(carts) ==>
        carts == old(carts)[userId := Remove(old(carts)[userId], productId)] && r == Ok(carts[userId])
      ensures old(Valid()) ==> Valid()
    {
      if userId !in carts {
        return Err(NotFound(UserNotFound));
      }
      var cart := Remove(carts[userId], productId);
      if ValidCart(carts[userId]) {
        RemoveKeepsValid(carts[userId], productId);
      }
      carts := carts[userId := cart];
      r := Ok(cart);
    }

    /** getCart changes nothing. */
    method GetCart(userId: string) returns (r: Result<seq<Entry>, Failure>)
      ensures userId in carts <==> r.Ok?
      ensures r.Ok? ==> r.value == carts[userId]
      ensures r.Err? ==> r.error == NotFound(UserNotFound)
    {
      if userId !in carts {
        return Err(NotFound(UserNotFound));
      }
      r := Ok(carts[userId]);
    }

    method ClearCart(userId: string) returns (r: Result<seq<Entry>, Failure>)
      modifies this
      ensures userId !in old(carts) ==> r == Err(NotFound(UserNotFound)) && carts == old(carts)
      ensures userId in old(carts) ==> carts == old(carts)[userId := []] && r == Ok([])
      ensures old(Valid()) ==> Valid()
    {
      if userId !in carts {
        return Err(NotFound(UserNotFound));
      }
      carts := carts[userId := []];
      r := Ok([]);
    }
  }

  /** Two clears in a row leave the cart empty both times, and a get
      after an add finds the item (with quantity 1 when it is new). */
  method ClearTwiceAndAddThenGet(store: CartStore, userId: string, id: string, name: string, imageUrl: string, price: real, now: int)
    requires userId in store.carts
    requires id != "" && name != "" && imageUrl != ""
    modifies store
  {
    var a := store.ClearCart(userId);
    var b := store.ClearCart(userId);
    assert a == Ok([]) && b == Ok([]);
    var c := store.AddToCart(userId, id, name, imageUrl, Some(price), now);
    var g := store.GetCart(userId);
    assert g == c && g.Ok?;
    assert g.value == [Entry(id, name, imageUrl, price, 1, now)];
  }
}
