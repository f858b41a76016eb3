/** Money amounts: a price taken a whole number of times, as the pages and
    the order schema multiply a price by a quantity. */
module Amounts {

  /** `price * n`, built by repeated addition so that sums of amounts stay
      linear; ScaleIsProduct shows it is the product. */
  function Scale(price: real, n: int): real
    decreases if n < 0 then -n else n
  {
    if n == 0 then 0.0
    else if n > 0 then Scale(price, n - 1) + price
    else Scale(price, n + 1) - price
  }

  lemma {:induction false} ScaleIsProduct(price: real, n: int)
    ensures Scale(price, n) == price * (n as real)
    decreases if n < 0 then -n else n
  {
    if n > 0 {
      ScaleIsProduct(price, n - 1);
      assert price * ((n - 1) as real) + price == price * (n as real);
    } else if n < 0 {
      ScaleIsProduct(price, n + 1);
      assert price * ((n + 1) as real) - price == price * (n as real);
    }
  }

  /** Taking a price `a + b` times is taking it `a` times and `b` times. */
  lemma {:induction false} ScaleAdd(price: real, a: int, b: int)
    ensures Scale(price, a + b) == Scale(price, a) + Scale(price, b)
    decreases if b < 0 then -b else b
  {
    if b > 0 {
      ScaleAdd(price, a, b - 1);
      assert Scale(price, a + b) == Scale(price, a + b - 1) + price;
    } else if b < 0 {
      ScaleAdd(price, a, b + 1);
      assert Scale(price, a + b) == Scale(price, a + b + 1) - price;
    }
  }
}
