/** The cart of one user, as the handlers of cartController.js leave it:
    an ordered sequence of entries keyed by item id, and the per-cart
    effect of each cart operation once the user has been found. */
module CartModel {
  import opened Wrappers
  import opened Seqs

  /** One cart line: a copy of the item's name, image and price taken when
      it was first added, its quantity and the time it was added. */
  datatype Entry = Entry(id: string, name: string, imageUrl: string, price: real, quantity: int, addedAt: int)

  const ItemNotInCart := "Item not in cart"
  const QuantityBelowOne := "Quantity cannot be less than 1"

  /** At most one entry per item id. */
  predicate UniqueIds(cart: seq<Entry>) {
    forall i, j :: 0 <= i < j < |cart| ==> cart[i].id != cart[j].id
  }

  /** No entry is stored with a quantity below 1. */
  predicate PositiveQuantities(cart: seq<Entry>) {
    forall i :: 0 <= i < |cart| ==> cart[i].quantity >= 1
  }

  /** The invariant every stored cart keeps. */
  predicate ValidCart(cart: seq<Entry>) {
    UniqueIds(cart) && PositiveQuantities(cart)
  }

  predicate HasId(e: Entry, id: string) {
    e.id == id
  }

  /** The position of the first entry with this id, or -1. */
  function IndexOf(cart: seq<Entry>, id: string): (k: int)
    ensures -1 <= k < |cart|
    ensures k == -1 <==> forall i :: 0 <= i < |cart| ==> cart[i].id != id
    ensures 0 <= k ==> cart[k].id == id && forall i :: 0 <= i < k ==> cart[i].id != id
  {
    IndexWhere(cart, (e: Entry) => HasId(e, id))
  }

  /** The cart with the quantity of entry `k` moved by `delta`. */
  function Adjust(cart: seq<Entry>, k: int, delta: int): (r: seq<Entry>)
    requires 0 <= k < |cart|
    ensures |r| == |cart|
    ensures r[k].quantity == cart[k].quantity + delta
    ensures r[k].(quantity := cart[k].quantity) == cart[k]
    ensures forall i :: 0 <= i < |r| && i != k ==> r[i] == cart[i]
  {
    cart[k := cart[k].(quantity := cart[k].quantity + delta)]
  }

  /** What addToCart stores once the request is complete: an entry already
      holding this id gains one unit (its name, image and price stay as
      they were); otherwise a new entry with quantity 1 goes at the end. */
  function Merge(cart: seq<Entry>, id: string, name: string, imageUrl: string, price: real, now: int): (r: seq<Entry>)
    ensures IndexOf(cart, id) >= 0 ==>
      var k := IndexOf(cart, id);
      |r| == |cart| && r[k] == cart[k].(quantity := cart[k].quantity + 1)
      && forall i :: 0 <= i < |r| && i != k ==> r[i] == cart[i]
    ensures IndexOf(cart, id) == -1 ==>
      |r| == |cart| + 1 && r[..|cart|] == cart && r[|cart|] == Entry(id, name, imageUrl, price, 1, now)
    ensures IndexOf(r, id) >= 0
    ensures ValidCart(cart) ==> ValidCart(r)
  {
    var k := IndexOf(cart, id);
    if k >= 0 then Adjust(cart, k, 1)
    else cart + [Entry(id, name, imageUrl, price, 1, now)]
  }

  /** increaseQuantity on a found user. */
  function Increase(cart: seq<Entry>, productId: string): (r: Result<seq<Entry>, Failure>)
    ensures r.Err? <==> forall i :: 0 <= i < |cart| ==> cart[i].id != productId
    ensures r.Err? ==> r.error == NotFound(ItemNotInCart)
    ensures r.Ok? ==>
      var k := IndexOf(cart, productId);
      |r.value| == |cart| && r.value[k] == cart[k].(quantity := cart[k].quantity + 1)
      && forall i :: 0 <= i < |cart| && i != k ==> r.value[i] == cart[i]
    ensures r.Ok? && ValidCart(cart) ==> ValidCart(r.value)
  {
    var k := IndexOf(cart, productId);
    if k == -1 then Err(NotFound(ItemNotInCart)) else Ok(Adjust(cart, k, 1))
  }

  /** decreaseQuantity on a found user: it lowers the first matching entry
      only while its quantity is above 1 and never removes the entry. */
  function Decrease(cart: seq<Entry>, productId: string): (r: Result<seq<Entry>, Failure>)
    ensures r == Err(NotFound(ItemNotInCart)) <==> forall i :: 0 <= i < |cart| ==> cart[i].id != productId
    ensures r == Err(BadRequest(QuantityBelowOne)) <==>
      IndexOf(cart, productId) >= 0 && cart[IndexOf(cart, productId)].quantity <= 1
    ensures r.Ok? <==> IndexOf(cart, productId) >= 0 && cart[IndexOf(cart, productId)].quantity > 1
    ensures r.Ok? ==>
      var k := IndexOf(cart, productId);
      |r.value| == |cart| && r.value[k] == cart[k].(quantity := cart[k].quantity - 1) && r.value[k].quantity >= 1
      && forall i :: 0 <= i < |cart| && i != k ==> r.value[i] == cart[i]
    ensures r.Ok? && ValidCart(cart) ==> ValidCart(r.value)
  {
    var k := IndexOf(cart, productId);
    if k == -1 then Err(NotFound(ItemNotInCart))
    else if cart[k].quantity > 1 then Ok(Adjust(cart, k, -1))
    else Err(BadRequest(QuantityBelowOne))
  }

  /** The entries removeFromCart keeps: those whose id differs. */
  function Keeps(productId: string): Entry -> bool {
    (e: Entry) => e.id != productId
  }

  /** removeFromCart on a found user. */
  function Remove(cart: seq<Entry>, productId: string): seq<Entry> {
    Filter(cart, Keeps(productId))
  }

  /** Every entry with this id goes and every other one stays; when no
      entry has the id the cart is returned as it was. */
  lemma RemoveDropsExactlyTheId(cart: seq<Entry>, productId: string)
    ensures forall e :: e in Remove(cart, productId) <==> e in cart && e.id != productId
    ensures (forall i :: 0 <= i < |cart| ==> cart[i].id != productId) ==> Remove(cart, productId) == cart
  {
    forall e ensures e in Remove(cart, productId) <==> e in cart && e.id != productId {
      FilterMembership(cart, Keeps(productId), e);
    }
    if forall i :: 0 <= i < |cart| ==> cart[i].id != productId {
      FilterAll(cart, Keeps(productId));
    }
  }

  /** Removing keeps a cart valid. */
  lemma {:induction false} RemoveKeepsValid(cart: seq<Entry>, productId: string)
    requires ValidCart(cart)
    ensures ValidCart(Remove(cart, productId))
  {
    var p := Keeps(productId);
    if cart != [] {
      RemoveKeepsValid(cart[1..], productId);
      var rest := Filter(cart[1..], p);
      forall e | e in rest ensures e in cart[1..] {
        FilterMembership(cart[1..], p, e);
      }
      forall j | 0 <= j < |rest| ensures rest[j].id != cart[0].id && rest[j].quantity >= 1 {
        assert rest[j] in cart[1..];
        var m :| 0 <= m < |cart[1..]| && cart[1..][m] == rest[j];
        assert cart[m + 1] == rest[j];
      }
    }
  }

  /** Removing is idempotent. */
  lemma RemoveIdempotent(cart: seq<Entry>, productId: string)
    ensures Remove(Remove(cart, productId), productId) == Remove(cart, productId)
  {
    FilterIdempotent(cart, Keeps(productId));
  }

  /** Removing keeps the relative order of the remaining entries: it
      distributes over any split of the cart. */
  lemma RemoveKeepsOrder(a: seq<Entry>, b: seq<Entry>, productId: string)
    ensures Remove(a + b, productId) == Remove(a, productId) + Remove(b, productId)
  {
    FilterConcat(a, b, Keeps(productId));
  }

  /** Adding then removing an id is the same as removing it from the
      original cart. */
  lemma RemoveUndoesMerge(cart: seq<Entry>, id: string, name: string, imageUrl: string, price: real, now: int)
    ensures Remove(Merge(cart, id, name, imageUrl, price, now), id) == Remove(cart, id)
  {
    var k := IndexOf(cart, id);
    if k >= 0 {
      RemoveIgnoresReplacedEntry(cart, k, cart[k].(quantity := cart[k].quantity + 1), id);
    } else {
      var e := Entry(id, name, imageUrl, price, 1, now);
      FilterConcat(cart, [e], Keeps(id));
      assert [e][1..] == [];
    }
  }

  /** Replacing an entry that carries the removed id by another that carries
      it does not change what removal leaves. */
  lemma {:induction false} RemoveIgnoresReplacedEntry(cart: seq<Entry>, k: int, x: Entry, id: string)
    requires 0 <= k < |cart| && cart[k].id == id && x.id == id
    ensures Remove(cart[k := x], id) == Remove(cart, id)
  {
    if k == 0 {
      assert cart[k := x][1..] == cart[1..];
    } else {
      assert cart[k := x][1..] == cart[1..][k - 1 := x];
      RemoveIgnoresReplacedEntry(cart[1..], k - 1, x, id);
    }
  }

  /** Decreasing after increasing gives back the cart. */
  lemma DecreaseUndoesIncrease(cart: seq<Entry>, productId: string)
    requires PositiveQuantities(cart)
    requires Increase(cart, productId).Ok?
    ensures Decrease(Increase(cart, productId).value, productId) == Ok(cart)
  {
    var r := Increase(cart, productId).value;
    var k := IndexOf(cart, productId);
    assert IndexOf(r, productId) == k;
    assert Adjust(r, k, -1) == cart;
  }

  /** Increasing after a successful decrease gives back the cart. */
  lemma IncreaseUndoesDecrease(cart: seq<Entry>, productId: string)
    requires Decrease(cart, productId).Ok?
    ensures Increase(Decrease(cart, productId).value, productId) == Ok(cart)
  {
    var r := Decrease(cart, productId).value;
    var k := IndexOf(cart, productId);
    assert IndexOf(r, productId) == k;
    assert Adjust(r, k, 1) == cart;
  }

  /** The cart after `n` complete addToCart requests for the same item. */
  function MergeTimes(cart: seq<Entry>, id: string, name: string, imageUrl: string, price: real, now: int, n: nat): seq<Entry>
  {
    if n == 0 then cart else Merge(MergeTimes(cart, id, name, imageUrl, price, now, n - 1), id, name, imageUrl, price, now)
  }

  /** Adding the same new item `n` times leaves exactly one entry for it,
      at the end, with quantity `n`. */
  lemma {:induction false} MergeRepeated(cart: seq<Entry>, id: string, name: string, imageUrl: string, price: real, now: int, n: nat)
    requires n >= 1
    requires forall i :: 0 <= i < |cart| ==> cart[i].id != id
    ensures MergeTimes(cart, id, name, imageUrl, price, now, n) == cart + [Entry(id, name, imageUrl, price, n, now)]
  {
    if n > 1 {
      MergeRepeated(cart, id, name, imageUrl, price, now, n - 1);
      var before := cart + [Entry(id, name, imageUrl, price, n - 1, now)];
      assert IndexOf(before, id) == |cart|;
    }
  }

  /** After an add on a valid cart exactly one entry carries the id. */
  lemma MergeLeavesOneEntry(cart: seq<Entry>, id: string, name: string, imageUrl: string, price: real, now: int)
    requires ValidCart(cart)
    ensures var r := Merge(cart, id, name, imageUrl, price, now);
      exists k :: 0 <= k < |r| && r[k].id == id && forall i :: 0 <= i < |r| && r[i].id == id ==> i == k
  {
    var r := Merge(cart, id, name, imageUrl, price, now);
    var k := IndexOf(r, id);
    assert r[k].id == id;
  }
}
