/** Properties relating several calls of the `ZboziKonverze` model: the
    serialised payload decodes back to the order, the setters overwrite and
    keep the invariant, `addCartItem` generalises the two `addProduct`
    variants, `setOrder` forgets what was there, and the URL and reply
    classification behave as the source writes them. */
module ZboziKonverzeProperties {
  import opened Wrappers
  import opened PhpStrings
  import opened ZboziKonverze

  // ---------------------------------------------------------------------------
  // Reading the payload back
  // ---------------------------------------------------------------------------

  function DecodeValue(j: Json): Option<Value> {
    match j
    case Null => Some(None)
    case JString(s) => Some(Some(Text(s)))
    case JNumber(n) => Some(Some(Number(n)))
    case _ => None
  }

  function DecodeString(j: Json): Option<string> {
    if j.JString? then Some(j.s) else None
  }

  function DecodeBool(j: Json): Option<bool> {
    if j.JBool? then Some(j.b) else None
  }

  /** Reads one cart item back from its object of four members. */
  function DecodeItem(j: Json): Option<CartItem> {
    if j.JObject? && |j.members| == 4
       && j.members[0].0 == "productName" && j.members[1].0 == "itemId"
       && j.members[2].0 == "unitPrice" && j.members[3].0 == "quantity"
    then
      var productName :- DecodeValue(j.members[0].1);
      var itemId :- DecodeValue(j.members[1].1);
      var unitPrice :- DecodeValue(j.members[2].1);
      var quantity :- DecodeValue(j.members[3].1);
      Some(CartItem(productName, itemId, unitPrice, quantity))
    else
      None
  }

  function DecodeCart(items: seq<Json>): Option<seq<CartItem>> {
    if |items| == 0 then Some([])
    else
      var first :- DecodeItem(items[0]);
      var rest :- DecodeCart(items[1..]);
      Some([first] + rest)
  }

  /** Reads an order back from the member list `get_object_vars` yields,
      insisting on the declared names in the declared order. */
  function ParsePayload(p: seq<(string, Json)>): Option<Order> {
    if |p| == |Declared| && forall i :: 0 <= i < |p| ==> p[i].0 == PropertyName(Declared[i]) then
      var privateKey :- DecodeString(p[0].1);
      var shopId :- DecodeString(p[1].1);
      var orderId :- DecodeValue(p[2].1);
      var email :- DecodeValue(p[3].1);
      var deliveryType :- DecodeValue(p[4].1);
      var deliveryDate :- DecodeValue(p[5].1);
      var deliveryPrice :- DecodeValue(p[6].1);
      var paymentType :- DecodeValue(p[7].1);
      var otherCosts :- DecodeValue(p[8].1);
      var totalPrice :- DecodeValue(p[9].1);
      var cart :- if p[10].1.JArray? then DecodeCart(p[10].1.elements) else None;
      var sandbox :- DecodeBool(p[11].1);
      Some(Order(privateKey, shopId, orderId, email, deliveryType, deliveryDate,
                 deliveryPrice, paymentType, otherCosts, totalPrice, cart, sandbox))
    else
      None
  }

  lemma ValueRoundTrip(v: Value)
    ensures DecodeValue(EncodeValue(v)) == Some(v)
  {
  }

  lemma ItemRoundTrip(item: CartItem)
    ensures DecodeItem(EncodeItem(item)) == Some(item)
  {
    ValueRoundTrip(item.productName);
    ValueRoundTrip(item.itemId);
    ValueRoundTrip(item.unitPrice);
    ValueRoundTrip(item.quantity);
  }

  /** Every cart, encoded item by item, reads back as itself. */
  lemma {:induction false} CartRoundTrip(cart: seq<CartItem>)
    ensures DecodeCart(EncodeCart(cart)) == Some(cart)
    decreases |cart|
  {
    if |cart| > 0 {
      var items := EncodeCart(cart);
      assert items[0] == EncodeItem(cart[0]);
      assert items[1..] == EncodeCart(cart[1..]);
      ItemRoundTrip(cart[0]);
      CartRoundTrip(cart[1..]);
      assert DecodeCart(items) == Some([cart[0]] + cart[1..]);
      assert [cart[0]] + cart[1..] == cart;
    }
  }

  /** The payload loses nothing: the order reads back from it. */
  lemma PayloadRoundTrip(o: Order)
    ensures ParsePayload(Payload(o)) == Some(o)
  {
    var p := Payload(o);
    assert forall i :: 0 <= i < |p| ==> p[i].0 == PropertyName(Declared[i]);
    ValueRoundTrip(o.orderId);
    ValueRoundTrip(o.email);
    ValueRoundTrip(o.deliveryType);
    ValueRoundTrip(o.deliveryDate);
    ValueRoundTrip(o.deliveryPrice);
    ValueRoundTrip(o.paymentType);
    ValueRoundTrip(o.otherCosts);
    ValueRoundTrip(o.totalPrice);
    CartRoundTrip(o.cart);
  }

  /** Two orders with the same serialised form are the same order. */
  lemma PayloadInjective(a: Order, b: Order)
    requires Payload(a) == Payload(b)
    ensures a == b
  {
    PayloadRoundTrip(a);
    PayloadRoundTrip(b);
  }

  /** An order is determined by what it holds for each declared property, so
      the setters' contracts, which say what every property holds afterwards,
      pin their results down completely. */
  lemma PropertiesDetermineOrder(a: Order, b: Order)
    requires forall p :: PropertyValue(a, p) == PropertyValue(b, p)
    ensures a == b
  {
    var pa := Payload(a);
    var pb := Payload(b);
    forall i | 0 <= i < |pa|
      ensures pa[i] == pb[i]
    {
      assert pa[i].1 == PropertyValue(a, Declared[i]) == PropertyValue(b, Declared[i]) == pb[i].1;
    }
    PayloadInjective(a, b);
  }

  // ---------------------------------------------------------------------------
  // Construction
  // ---------------------------------------------------------------------------

  /** The constructor succeeds exactly when both credentials are set and PHP
      `trim` leaves something of each. */
  lemma ConstructionSucceedsIff(shopId: Option<string>, privateKey: Option<string>)
    ensures New(shopId, privateKey).Success? <==>
              shopId.Some? && Trim(shopId.value) != "" && privateKey.Some? && Trim(privateKey.value) != ""
  {
    if shopId.Some? {
      assert IsCredential(shopId.value) <==> !AllTrimmable(shopId.value);
    }
    if privateKey.Some? {
      assert IsCredential(privateKey.value) <==> !AllTrimmable(privateKey.value);
    }
  }

  /** With both credentials unusable, the shop id is the one reported. */
  lemma BothMissingReportsShopId(shopId: Option<string>, privateKey: Option<string>)
    requires IsNullOrEmptyString(shopId) && IsNullOrEmptyString(privateKey)
    ensures New(shopId, privateKey) == Failure(ZboziKonverzeException(ShopIdMandatory))
  {
  }

  /** A whitespace-only shop id is refused even with a good private key. */
  lemma WhitespaceShopIdRejected()
    ensures New(Some(" \t\n"), Some("fedcba9876543210123456789abcdef"))
            == Failure(ZboziKonverzeException(ShopIdMandatory))
  {
    assert !IsCredential(" \t\n") by {
      assert AllTrimmable(" \t\n");
    }
  }

  /** A freshly constructed object serialises every property: the two
      credentials, eight `null`s, an empty cart and `sandbox` off. */
  lemma FreshPayload(shopId: string, privateKey: string)
    requires IsCredential(shopId) && IsCredential(privateKey)
    ensures New(Some(shopId), Some(privateKey)).Success?
    ensures Payload(New(Some(shopId), Some(privateKey)).value) == [
              ("PRIVATE_KEY", JString(privateKey)), ("SHOP_ID", JString(shopId)),
              ("orderId", Null), ("email", Null), ("deliveryType", Null), ("deliveryDate", Null),
              ("deliveryPrice", Null), ("paymentType", Null), ("otherCosts", Null),
              ("totalPrice", Null), ("cart", JArray([])), ("sandbox", JBool(false))]
  {
  }

  // ---------------------------------------------------------------------------
  // Setters
  // ---------------------------------------------------------------------------

  /** The single-property setters keep a constructed object's invariant. */
  lemma SettersKeepValid(o: Order, v: Value, b: bool)
    requires Valid(o)
    ensures Valid(UseSandbox(o, b)) && Valid(SetEmail(o, v))
    ensures Valid(AddOrderId(o, v)) && Valid(AddTotalPrice(o, v))
  {
    assert PropertyValue(UseSandbox(o, b), ShopId) == PropertyValue(o, ShopId);
    assert PropertyValue(UseSandbox(o, b), PrivateKey) == PropertyValue(o, PrivateKey);
    assert PropertyValue(SetEmail(o, v), ShopId) == PropertyValue(o, ShopId);
    assert PropertyValue(SetEmail(o, v), PrivateKey) == PropertyValue(o, PrivateKey);
    assert PropertyValue(AddOrderId(o, v), ShopId) == PropertyValue(o, ShopId);
    assert PropertyValue(AddOrderId(o, v), PrivateKey) == PropertyValue(o, PrivateKey);
    assert PropertyValue(AddTotalPrice(o, v), ShopId) == PropertyValue(o, ShopId);
    assert PropertyValue(AddTotalPrice(o, v), PrivateKey) == PropertyValue(o, PrivateKey);
  }

  /** For each single-property setter the last write wins. */
  lemma SettersLastWriteWins(o: Order, v: Value, w: Value, b: bool, c: bool)
    ensures SetEmail(SetEmail(o, v), w) == SetEmail(o, w)
    ensures AddOrderId(AddOrderId(o, v), w) == AddOrderId(o, w)
    ensures AddTotalPrice(AddTotalPrice(o, v), w) == AddTotalPrice(o, w)
    ensures UseSandbox(UseSandbox(o, b), c) == UseSandbox(o, c)
  {
    forall p ensures PropertyValue(SetEmail(SetEmail(o, v), w), p) == PropertyValue(SetEmail(o, w), p) {}
    PropertiesDetermineOrder(SetEmail(SetEmail(o, v), w), SetEmail(o, w));
    forall p ensures PropertyValue(AddOrderId(AddOrderId(o, v), w), p) == PropertyValue(AddOrderId(o, w), p) {}
    PropertiesDetermineOrder(AddOrderId(AddOrderId(o, v), w), AddOrderId(o, w));
    forall p ensures PropertyValue(AddTotalPrice(AddTotalPrice(o, v), w), p) == PropertyValue(AddTotalPrice(o, w), p) {}
    PropertiesDetermineOrder(AddTotalPrice(AddTotalPrice(o, v), w), AddTotalPrice(o, w));
    forall p ensures PropertyValue(UseSandbox(UseSandbox(o, b), c), p) == PropertyValue(UseSandbox(o, c), p) {}
    PropertiesDetermineOrder(UseSandbox(UseSandbox(o, b), c), UseSandbox(o, c));
  }

  // ---------------------------------------------------------------------------
  // Cart
  // ---------------------------------------------------------------------------

  /** `addProduct` and `addProductItemId` are `addCartItem` with a one-key array. */
  lemma AddCartItemGeneralisesAddProduct(o: Order, v: Value)
    ensures AddCartItem(o, map["productName" := v]) == AddProduct(o, v)
    ensures AddCartItem(o, map["itemId" := v]) == AddProductItemId(o, v)
  {
    var m := map["productName" := v];
    assert "itemId" !in m && "unitPrice" !in m && "quantity" !in m;
    var n := map["itemId" := v];
    assert "productName" !in n && "unitPrice" !in n && "quantity" !in n;
  }

  /** `addCartItem` looks at its four keys only: arrays that agree on them
      (present or absent, and the value when present) append the same item. */
  lemma AddCartItemIgnoresOtherKeys(o: Order, a: Attributes, b: Attributes)
    requires forall k :: k in {"productName", "itemId", "unitPrice", "quantity"} ==>
               (k in a <==> k in b) && (k in a ==> a[k] == b[k])
    ensures AddCartItem(o, a) == AddCartItem(o, b)
  {
    assert "productName" in {"productName", "itemId", "unitPrice", "quantity"};
    assert "itemId" in {"productName", "itemId", "unitPrice", "quantity"};
    assert "unitPrice" in {"productName", "itemId", "unitPrice", "quantity"};
    assert "quantity" in {"productName", "itemId", "unitPrice", "quantity"};
    var ra := AddCartItem(o, a);
    var rb := AddCartItem(o, b);
    assert ra.cart == rb.cart by {
      assert ra.cart == o.cart + [ra.cart[|o.cart|]];
      assert rb.cart == o.cart + [rb.cart[|o.cart|]];
    }
    forall p ensures PropertyValue(ra, p) == PropertyValue(rb, p) {}
    PropertiesDetermineOrder(ra, rb);
  }

  /** The cart-adding calls keep the invariant. */
  lemma CartCallsKeepValid(o: Order, v: Value, attrs: Attributes)
    requires Valid(o)
    ensures Valid(AddProduct(o, v)) && Valid(AddProductItemId(o, v)) && Valid(AddCartItem(o, attrs))
  {
    assert PropertyValue(AddProduct(o, v), ShopId) == PropertyValue(o, ShopId);
    assert PropertyValue(AddProduct(o, v), PrivateKey) == PropertyValue(o, PrivateKey);
    assert PropertyValue(AddProductItemId(o, v), ShopId) == PropertyValue(o, ShopId);
    assert PropertyValue(AddProductItemId(o, v), PrivateKey) == PropertyValue(o, PrivateKey);
    assert PropertyValue(AddCartItem(o, attrs), ShopId) == PropertyValue(o, ShopId);
    assert PropertyValue(AddCartItem(o, attrs), PrivateKey) == PropertyValue(o, PrivateKey);
  }

  // ---------------------------------------------------------------------------
  // setOrder
  // ---------------------------------------------------------------------------

  /** `setOrder` replaces all eight attributes at once: what the order held
      before does not matter, only its credentials, cart and sandbox flag. */
  lemma SetOrderForgetsPrevious(a: Order, b: Order, attrs: Attributes)
    requires forall p :: !IsOrderAttribute(p) ==> PropertyValue(a, p) == PropertyValue(b, p)
    ensures SetOrder(a, attrs) == SetOrder(b, attrs)
  {
    forall p ensures PropertyValue(SetOrder(a, attrs), p) == PropertyValue(SetOrder(b, attrs), p) {
      if !IsOrderAttribute(p) {
        assert PropertyValue(a, p) == PropertyValue(b, p);
      }
    }
    PropertiesDetermineOrder(SetOrder(a, attrs), SetOrder(b, attrs));
  }

  /** Two `setOrder` calls: the second wins entirely. */
  lemma SetOrderLastWriteWins(o: Order, first: Attributes, second: Attributes)
    ensures SetOrder(SetOrder(o, first), second) == SetOrder(o, second)
  {
    SetOrderForgetsPrevious(SetOrder(o, first), o, second);
  }

  /** Attributes set earlier but omitted from the array, here the total price
      and the delivery date, are cleared to `null`, while falsy values that are
      given, such as a zero `otherCosts`, are assigned. */
  lemma SetOrderClearsOmittedKeys(o: Order)
    ensures var r := SetOrder(AddTotalPrice(o.(deliveryDate := Some(Text("2016-02-29"))), Some(Number(7500))),
                              map["email" := Some(Text("jan.novak@example.com")),
                                  "deliveryType" := Some(Text("balik_do_ruky")),
                                  "deliveryPrice" := Some(Number(100)),
                                  "orderId" := Some(Number(123456)),
                                  "otherCosts" := Some(Number(0)),
                                  "paymentType" := Some(Text("prevodem_z_uctu"))]);
            && PropertyValue(r, TotalPrice) == Null
            && PropertyValue(r, DeliveryDate) == Null
            && PropertyValue(r, OtherCosts) == JNumber(0)
            && PropertyValue(r, OrderId) == JNumber(123456)
            && r.cart == o.cart
  {
  }

  /** `setOrder` keeps the invariant. */
  lemma SetOrderKeepsValid(o: Order, attrs: Attributes)
    requires Valid(o)
    ensures Valid(SetOrder(o, attrs))
  {
    assert PropertyValue(SetOrder(o, attrs), ShopId) == PropertyValue(o, ShopId);
    assert PropertyValue(SetOrder(o, attrs), PrivateKey) == PropertyValue(o, PrivateKey);
  }

  // ---------------------------------------------------------------------------
  // Endpoint
  // ---------------------------------------------------------------------------

  predicate StartsWith(s: string, prefix: string) {
    |prefix| <= |s| && s[..|prefix|] == prefix
  }

  /** For a shop id free of the domain placeholder the URL is the template
      with the host and the shop id, verbatim, in their places. */
  lemma GetUrlVerbatimShopId(o: Order)
    requires !Contains(o.shopId, DomainPlaceholder)
    ensures GetUrl(o) == "https://" + Host(o.sandbox) + "/action/" + o.shopId + "/conversion/backend"
  {
    StrReplaceAbsent(DomainPlaceholder, Host(o.sandbox), o.shopId);
  }

  /** A prefix fixes the characters it covers. */
  lemma StartsWithAt(s: string, prefix: string, i: nat)
    requires StartsWith(s, prefix) && i < |prefix|
    ensures s[i] == prefix[i]
  {
    assert s[..|prefix|][i] == s[i];
  }

  /** A URL that starts with the scheme, the host and a path beginning with
      `/` starts with the scheme, the host and `/`. */
  lemma StartsWithHost(scheme: string, host: string, path: string, rest: string)
    requires |path| > 0 && path[0] == '/'
    ensures StartsWith(scheme + (host + (path + rest)), scheme + host + "/")
  {
    var s := scheme + (host + (path + rest));
    var p := scheme + host + "/";
    assert |p| <= |s|;
    forall i | 0 <= i < |p|
      ensures s[i] == p[i]
    {
      if i < |scheme| {
      } else if i < |scheme| + |host| {
      } else {
        assert s[i] == path[0];
      }
    }
    assert s[..|p|] == p;
  }

  /** The two URL prefixes the hosts give, and the character that tells them apart. */
  lemma HostPrefixes()
    ensures Scheme + SandboxDomain + "/" == "https://sandbox.zbozi.cz/"
    ensures Scheme + ProductionDomain + "/" == "https://www.zbozi.cz/"
    ensures "https://sandbox.zbozi.cz/"[8] == 's' && "https://www.zbozi.cz/"[8] == 'w'
  {
  }

  /** The URL goes to the sandbox host exactly when the sandbox flag is set. */
  lemma GetUrlSandboxIff(o: Order)
    ensures o.sandbox <==> StartsWith(GetUrl(o), "https://sandbox.zbozi.cz/")
    ensures !o.sandbox <==> StartsWith(GetUrl(o), "https://www.zbozi.cz/")
  {
    var url := GetUrl(o);
    var sandboxPrefix := "https://sandbox.zbozi.cz/";
    var productionPrefix := "https://www.zbozi.cz/";
    HostPrefixes();
    StartsWithHost(Scheme, Host(o.sandbox), ActionPath,
                   StrReplace(DomainPlaceholder, Host(o.sandbox), o.shopId) + ConversionPath);
    assert StartsWith(url, Scheme + Host(o.sandbox) + "/");
    if StartsWith(url, sandboxPrefix) {
      StartsWithAt(url, sandboxPrefix, 8);
    }
    if StartsWith(url, productionPrefix) {
      StartsWithAt(url, productionPrefix, 8);
    }
  }

  /** The domain substitution scans the shop id too: a shop id that is the
      domain placeholder becomes the host a second time. */
  lemma ShopIdPlaceholderExpanded(o: Order)
    requires o.shopId == DomainPlaceholder && !o.sandbox
    ensures GetUrl(o) == "https://" + "www.zbozi.cz" + "/action/" + "www.zbozi.cz" + "/conversion/backend"
  {
    StrReplaceHead(DomainPlaceholder, ProductionDomain, []);
    assert DomainPlaceholder + [] == DomainPlaceholder;
    assert ProductionDomain + [] == ProductionDomain;
  }

  /** The URL depends on the shop id and the sandbox flag only: every call
      but `useSandbox` leaves it unchanged. */
  lemma GetUrlIgnoresOrderContent(o: Order, attrs: Attributes, v: Value)
    ensures GetUrl(SetOrder(o, attrs)) == GetUrl(o)
    ensures GetUrl(AddCartItem(o, attrs)) == GetUrl(o)
    ensures GetUrl(AddProduct(o, v)) == GetUrl(o)
    ensures GetUrl(AddProductItemId(o, v)) == GetUrl(o)
    ensures GetUrl(SetEmail(o, v)) == GetUrl(o)
    ensures GetUrl(AddOrderId(o, v)) == GetUrl(o)
    ensures GetUrl(AddTotalPrice(o, v)) == GetUrl(o)
  {
  }

  // ---------------------------------------------------------------------------
  // Reply classification
  // ---------------------------------------------------------------------------

  /** A transport that always answers with the given status. */
  function Answering(status: Option<int>): Request -> Reply {
    (req: Request) => Response(status)
  }

  /** Only a status of exactly 200 is accepted: 201 or 204 is a rejection,
      and so is a reply without a status. */
  lemma OnlyStatus200Accepted(o: Order, status: int)
    ensures Send(o, Answering(Some(status))).Success? <==> status == 200
    ensures status != 200 ==>
              Send(o, Answering(Some(status))) == Failure(ZboziKonverzeException(NotAccepted))
    ensures Send(o, Answering(None)) == Failure(ZboziKonverzeException(NotAccepted))
  {
  }

  /** A read that returns `false`, whether the connection failed or the server
      answered with an HTTP error status, is reported as a connection failure. */
  lemma NoResponseIsConnectionFailure(o: Order)
    ensures Send(o, (req: Request) => NoResponse) == Failure(ZboziKonverzeException(ConnectionFailed))
  {
  }

  /** `send` rethrows `sendRequest`'s failure with the identical message, and
      passes its success through. */
  lemma SendKeepsSendRequestOutcome(o: Order, exchange: Request -> Reply)
    ensures Send(o, exchange) == SendRequest(o, GetUrl(o), exchange)
  {
  }
}
