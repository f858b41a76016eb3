/** The two sums the storefront shows for a cart (Cart.jsx and
    PlaceOrder.jsx): the price total and the number of units. */
module CartTotals {
  import opened Seqs
  import opened CartModel
  import opened Amounts

  /** `item.price * item.quantity`. */
  function LineTotal(e: Entry): real {
    Scale(e.price, e.quantity)
  }

  /** `calculateTotal`: the sum of price times quantity, 0 for an empty
      cart. The sum is exact (no floating-point rounding). */
  function Total(cart: seq<Entry>): real {
    if cart == [] then 0.0 else LineTotal(cart[0]) + Total(cart[1..])
  }

  /** The "items" count: the sum of the quantities. */
  function ItemCount(cart: seq<Entry>): int {
    if cart == [] then 0 else cart[0].quantity + ItemCount(cart[1..])
  }

  lemma {:induction false} TotalsAppend(a: seq<Entry>, b: seq<Entry>)
    ensures Total(a + b) == Total(a) + Total(b)
    ensures ItemCount(a + b) == ItemCount(a) + ItemCount(b)
  {
    if a == [] {
      assert a + b == b;
    } else {
      assert (a + b)[1..] == a[1..] + b;
      TotalsAppend(a[1..], b);
    }
  }

  /** Replacing one entry changes each sum by the difference of that
      entry's contributions. */
  lemma {:induction false} TotalsReplaceAt(cart: seq<Entry>, k: int, e: Entry)
    requires 0 <= k < |cart|
    ensures Total(cart[k := e]) == Total(cart) - LineTotal(cart[k]) + LineTotal(e)
    ensures ItemCount(cart[k := e]) == ItemCount(cart) - cart[k].quantity + e.quantity
  {
    if k == 0 {
      assert cart[k := e][1..] == cart[1..];
    } else {
      assert cart[k := e][1..] == cart[1..][k - 1 := e];
      TotalsReplaceAt(cart[1..], k - 1, e);
    }
  }

  /** Moving one entry's quantity by `delta` moves the item count by
      `delta` and the total by `delta` times that entry's price. */
  lemma AdjustMovesTotals(cart: seq<Entry>, k: int, delta: int)
    requires 0 <= k < |cart|
    ensures ItemCount(Adjust(cart, k, delta)) == ItemCount(cart) + delta
    ensures Total(Adjust(cart, k, delta)) == Total(cart) + Scale(cart[k].price, delta)
  {
    var e := cart[k].(quantity := cart[k].quantity + delta);
    assert Adjust(cart, k, delta) == cart[k := e];
    TotalsReplaceAt(cart, k, e);
    ScaleAdd(cart[k].price, cart[k].quantity, delta);
  }

  /** Every add raises the item count by exactly one; the total rises by
      the stored price of the entry when the item was already there (the
      price sent with the request is ignored) and by the sent price when it
      is new. */
  lemma MergeMovesTotals(cart: seq<Entry>, id: string, name: string, imageUrl: string, price: real, now: int)
    ensures ItemCount(Merge(cart, id, name, imageUrl, price, now)) == ItemCount(cart) + 1
    ensures Total(Merge(cart, id, name, imageUrl, price, now)) ==
      Total(cart) + (if IndexOf(cart, id) >= 0 then cart[IndexOf(cart, id)].price else price)
  {
    var k := IndexOf(cart, id);
    if k >= 0 {
      AdjustMovesTotals(cart, k, 1);
    } else {
      var e := Entry(id, name, imageUrl, price, 1, now);
      TotalsAppend(cart, [e]);
      assert [e][1..] == [];
    }
  }

  /** With quantities of at least 1 the count of units is at least the
      number of entries, and equals it exactly when every quantity is 1. */
  lemma {:induction false} ItemCountAtLeastEntries(cart: seq<Entry>)
    requires PositiveQuantities(cart)
    ensures ItemCount(cart) >= |cart|
    ensures ItemCount(cart) == |cart| <==> forall i :: 0 <= i < |cart| ==> cart[i].quantity == 1
  {
    if cart != [] {
      ItemCountAtLeastEntries(cart[1..]);
      if ItemCount(cart) == |cart| {
        forall i | 0 <= i < |cart| ensures cart[i].quantity == 1 {
          if i > 0 {
            assert cart[1..][i - 1] == cart[i];
          }
        }
      }
    }
  }
}
