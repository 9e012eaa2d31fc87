/** One order's lifetime on a `ZboziKonverze` object: after construction the
    caller makes any number of setter and cart calls, in any order, before
    `send`. Whatever the calls, the credentials stay as constructed and the
    cart only grows at its end. */
module Session {
  import opened Wrappers
  import Z = ZboziKonverze

  /** One public mutator call with its argument. */
  datatype Call =
    | UseSandbox(val: bool)
    | SetEmail(email: Z.Value)
    | AddOrderId(orderId: Z.Value)
    | AddProduct(productName: Z.Value)
    | AddProductItemId(itemId: Z.Value)
    | AddCartItem(cartItem: Z.Attributes)
    | AddTotalPrice(totalPrice: Z.Value)
    | SetOrder(orderAttributes: Z.Attributes)

  /** The calls that append to the cart. */
  predicate AddsToCart(c: Call) {
    c.AddProduct? || c.AddProductItemId? || c.AddCartItem?
  }

  /** How many of `calls` append to the cart. */
  function CartCalls(calls: seq<Call>): nat {
    if |calls| == 0 then 0
    else (if AddsToCart(calls[0]) then 1 else 0) + CartCalls(calls[1..])
  }

  /** Performs one call on the object. */
  function Apply(o: Z.Order, c: Call): (r: Z.Order)
    ensures r.shopId == o.shopId && r.privateKey == o.privateKey
    ensures |r.cart| == |o.cart| + (if AddsToCart(c) then 1 else 0)
    ensures r.cart[..|o.cart|] == o.cart
  {
    match c
    case UseSandbox(val) => Z.UseSandbox(o, val)
    case SetEmail(email) => Z.SetEmail(o, email)
    case AddOrderId(orderId) => Z.AddOrderId(o, orderId)
    case AddProduct(productName) => Z.AddProduct(o, productName)
    case AddProductItemId(itemId) => Z.AddProductItemId(o, itemId)
    case AddCartItem(cartItem) => Z.AddCartItem(o, cartItem)
    case AddTotalPrice(totalPrice) => Z.AddTotalPrice(o, totalPrice)
    case SetOrder(orderAttributes) => Z.SetOrder(o, orderAttributes)
  }

  /** Performs the calls in order. The credentials survive unchanged, the
      cart before the calls is a prefix of the cart after them, and the cart
      grew by one item per cart call. */
  function Run(o: Z.Order, calls: seq<Call>): (r: Z.Order)
    ensures r.shopId == o.shopId && r.privateKey == o.privateKey
    ensures |r.cart| == |o.cart| + CartCalls(calls)
    ensures r.cart[..|o.cart|] == o.cart
    decreases |calls|
  {
    if |calls| == 0 then o
    else
      var next := Apply(o, calls[0]);
      var r := Run(next, calls[1..]);
      assert r.cart[..|o.cart|] == r.cart[..|next.cart|][..|o.cart|];
      r
  }

  /** A constructed object stays valid through any sequence of calls. */
  lemma RunKeepsValid(o: Z.Order, calls: seq<Call>)
    requires Z.Valid(o)
    ensures Z.Valid(Run(o, calls))
  {
  }

  /** The simple usage example: email, order id, one product by item id and
      one by name, in that order, on a production object. */
  lemma SimpleExampleSession(o: Z.Order)
    requires o.cart == [] && !o.sandbox
    ensures var r := Run(o, [SetEmail(Some(Z.Text("jan.novak@example.com"))),
                             AddOrderId(Some(Z.Number(123456))),
                             AddProductItemId(Some(Z.Text("B1234"))),
                             AddProduct(Some(Z.Text("iPhone 7S")))]);
            && r.cart == [Z.CartItem(None, Some(Z.Text("B1234")), None, None),
                          Z.CartItem(Some(Z.Text("iPhone 7S")), None, None, None)]
            && r.email == Some(Z.Text("jan.novak@example.com"))
            && r.orderId == Some(Z.Number(123456))
            && !r.sandbox
  {
  }
}
