/** What the pages hand to the cart. The cart store itself is not part of
    this model: a call to `addToCart` is recorded as an event in a log. */
module Cart {

  /** The argument of `addToCart`: the purchasable item's identity and display data. */
  datatype CartLine = CartLine(
    id: string,
    title: string,
    price: int,
    image: string,
    category: string)

  /** One call into the cart store. */
  datatype CartCall = AddToCart(line: CartLine)

  /** An entry of the cart as the checkout page lists it. */
  datatype CartItem = CartItem(line: CartLine, quantity: int)

  /** `n` calls of `addToCart` with the same argument. */
  function Repeat(line: CartLine, n: nat): (log: seq<CartCall>)
    ensures |log| == n
    ensures forall i :: 0 <= i < n ==> log[i] == AddToCart(line)
  {
    if n == 0 then [] else Repeat(line, n - 1) + [AddToCart(line)]
  }

  /** The prices carried by a series of cart calls, added up. */
  function SumPrices(log: seq<CartCall>): int {
    if log == [] then 0 else log[0].line.price + SumPrices(log[1..])
  }

  /** One more call adds its price to the sum. */
  lemma {:induction false} SumPricesSnoc(log: seq<CartCall>, c: CartCall)
    ensures SumPrices(log + [c]) == SumPrices(log) + c.line.price
    decreases |log|
  {
    if log == [] {
      assert log + [c] == [c];
    } else {
      assert (log + [c])[1..] == log[1..] + [c];
      SumPricesSnoc(log[1..], c);
    }
  }
}
