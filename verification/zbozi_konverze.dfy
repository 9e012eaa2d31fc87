/** The `ZboziKonverze` client object (ZboziKonverze.php): it collects the
    credentials, the order attributes and the cart of one order, derives the
    endpoint URL, hands the serialised properties to the transport, and turns
    the service's reply into `true` or a `ZboziKonverzeException`.

    The PHP object is mutable; here it is an immutable `Order` record and
    every public method is a function returning the updated record. */
module ZboziKonverze {
  import opened Wrappers
  import opened PhpStrings

  // ---------------------------------------------------------------------------
  // Values
  // ---------------------------------------------------------------------------

  /** A scalar a caller hands to a setter. Prices and quantities are kept as
      whole numbers: the client passes them through and never computes with them. */
  datatype Scalar = Text(text: string) | Number(n: int)

  /** A property or array entry that may be `null`. */
  type Value = Option<Scalar>

  /** A PHP associative array of attributes. A key that is present may still
      map to `null` (`None`): `array_key_exists` sees it, `isset` would not. */
  type Attributes = map<string, Value>

  /** Reading `$attrs[$key]`: a missing key reads as `null`. */
  function Lookup(attrs: Attributes, key: string): Value {
    if key in attrs then attrs[key] else None
  }

  // ---------------------------------------------------------------------------
  // Data model
  // ---------------------------------------------------------------------------

  /** `class CartItem`: four public properties, all `null` until assigned. */
  datatype CartItem = CartItem(productName: Value, itemId: Value, unitPrice: Value, quantity: Value)

  /** `new CartItem()`. */
  const EmptyItem: CartItem := CartItem(None, None, None, None)

  /** The properties of one `ZboziKonverze` object, in declaration order.
      The credentials are plain strings: the constructor rejects `null`. */
  datatype Order = Order(
    privateKey: string,
    shopId: string,
    orderId: Value,
    email: Value,
    deliveryType: Value,
    deliveryDate: Value,
    deliveryPrice: Value,
    paymentType: Value,
    otherCosts: Value,
    totalPrice: Value,
    cart: seq<CartItem>,
    sandbox: bool)

  /** The declared properties of the class, one constructor each. */
  datatype Property =
    | PrivateKey | ShopId | OrderId | Email | DeliveryType | DeliveryDate
    | DeliveryPrice | PaymentType | OtherCosts | TotalPrice | Cart | Sandbox

  /** The order in which the class declares its properties, which is the order
      `get_object_vars` lists them in. */
  const Declared: seq<Property> := [
    PrivateKey, ShopId, OrderId, Email, DeliveryType, DeliveryDate,
    DeliveryPrice, PaymentType, OtherCosts, TotalPrice, Cart, Sandbox]

  /** The PHP name of each property; for the eight order attributes this is
      also the key `setOrder` reads. */
  function PropertyName(p: Property): string {
    match p
    case PrivateKey => "PRIVATE_KEY"
    case ShopId => "SHOP_ID"
    case OrderId => "orderId"
    case Email => "email"
    case DeliveryType => "deliveryType"
    case DeliveryDate => "deliveryDate"
    case DeliveryPrice => "deliveryPrice"
    case PaymentType => "paymentType"
    case OtherCosts => "otherCosts"
    case TotalPrice => "totalPrice"
    case Cart => "cart"
    case Sandbox => "sandbox"
  }

  /** The eight attributes `setOrder` assigns. */
  predicate IsOrderAttribute(p: Property) {
    !(p == PrivateKey || p == ShopId || p == Cart || p == Sandbox)
  }

  // ---------------------------------------------------------------------------
  // Serialised form
  // ---------------------------------------------------------------------------

  /** A JSON value as `json_encode` produces it; objects keep key order. */
  datatype Json =
    | Null
    | JString(s: string)
    | JNumber(n: int)
    | JBool(b: bool)
    | JArray(elements: seq<Json>)
    | JObject(members: seq<(string, Json)>)

  function EncodeValue(v: Value): Json {
    match v
    case None => Null
    case Some(Text(s)) => JString(s)
    case Some(Number(n)) => JNumber(n)
  }

  /** A cart item encodes as an object of its four public properties. */
  function EncodeItem(item: CartItem): Json {
    JObject([
      ("productName", EncodeValue(item.productName)),
      ("itemId", EncodeValue(item.itemId)),
      ("unitPrice", EncodeValue(item.unitPrice)),
      ("quantity", EncodeValue(item.quantity))])
  }

  function EncodeCart(cart: seq<CartItem>): (r: seq<Json>)
    ensures |r| == |cart|
    ensures forall i :: 0 <= i < |cart| ==> r[i] == EncodeItem(cart[i])
  {
    if |cart| == 0 then [] else [EncodeItem(cart[0])] + EncodeCart(cart[1..])
  }

  /** What the serialised object holds for property `p`. A property that was
      never assigned holds `null`. */
  function PropertyValue(o: Order, p: Property): Json {
    match p
    case PrivateKey => JString(o.privateKey)
    case ShopId => JString(o.shopId)
    case OrderId => EncodeValue(o.orderId)
    case Email => EncodeValue(o.email)
    case DeliveryType => EncodeValue(o.deliveryType)
    case DeliveryDate => EncodeValue(o.deliveryDate)
    case DeliveryPrice => EncodeValue(o.deliveryPrice)
    case PaymentType => EncodeValue(o.paymentType)
    case OtherCosts => EncodeValue(o.otherCosts)
    case TotalPrice => EncodeValue(o.totalPrice)
    case Cart => JArray(EncodeCart(o.cart))
    case Sandbox => JBool(o.sandbox)
  }

  /** `get_object_vars($this)` as handed to `json_encode`: every declared
      property, the private `sandbox` included, in declaration order, with
      `null` for those never assigned. */
  function Payload(o: Order): (r: seq<(string, Json)>)
    ensures |r| == |Declared|
    ensures forall i :: 0 <= i < |r| ==> r[i].0 == PropertyName(Declared[i])
    ensures forall i :: 0 <= i < |r| ==> r[i].1 == PropertyValue(o, Declared[i])
  {
    [
      ("PRIVATE_KEY", JString(o.privateKey)),
      ("SHOP_ID", JString(o.shopId)),
      ("orderId", EncodeValue(o.orderId)),
      ("email", EncodeValue(o.email)),
      ("deliveryType", EncodeValue(o.deliveryType)),
      ("deliveryDate", EncodeValue(o.deliveryDate)),
      ("deliveryPrice", EncodeValue(o.deliveryPrice)),
      ("paymentType", EncodeValue(o.paymentType)),
      ("otherCosts", EncodeValue(o.otherCosts)),
      ("totalPrice", EncodeValue(o.totalPrice)),
      ("cart", JArray(EncodeCart(o.cart))),
      ("sandbox", JBool(o.sandbox))
    ]
  }

  // ---------------------------------------------------------------------------
  // Errors
  // ---------------------------------------------------------------------------

  /** `ZboziKonverzeException`, carrying its message. */
  datatype Exception = ZboziKonverzeException(message: string)

  const ShopIdMandatory: string := "shopId si mandatory"
  const PrivateKeyMandatory: string := "privateKey si mandatory"
  const ConnectionFailed: string := "Unable to establish connection to ZboziKonverze service"
  const NotAccepted: string := "Request was not accepted."

  // ---------------------------------------------------------------------------
  // Construction
  // ---------------------------------------------------------------------------

  /** `isNullOrEmptyString`: the value is `null`, or `trim` leaves nothing of
      it, which happens exactly when it consists of strippable characters. */
  function IsNullOrEmptyString(question: Option<string>): (r: bool)
    ensures r <==> question.None? || AllTrimmable(question.value)
  {
    question.None? || Trim(question.value) == ""
  }

  /** A credential the constructor accepts: set, and holding at least one
      character `trim` keeps. */
  predicate IsCredential(s: string) {
    exists i :: 0 <= i < |s| && !IsTrimmable(s[i])
  }

  /** The invariant of a constructed object: both credentials are usable. */
  predicate Valid(o: Order) {
    IsCredential(o.shopId) && IsCredential(o.privateKey)
  }

  /** `new ZboziKonverze($shopId, $privateKey)`. The shop id is checked first,
      so when both are unusable the shop id's message is the one thrown. On
      success the credentials are stored untrimmed, the sandbox is off and
      nothing else is set. */
  function New(shopId: Option<string>, privateKey: Option<string>): (r: Result<Order, Exception>)
    ensures r.Success? <==> shopId.Some? && IsCredential(shopId.value)
                            && privateKey.Some? && IsCredential(privateKey.value)
    ensures !(shopId.Some? && IsCredential(shopId.value)) ==>
              r == Failure(ZboziKonverzeException(ShopIdMandatory))
    ensures shopId.Some? && IsCredential(shopId.value)
            && !(privateKey.Some? && IsCredential(privateKey.value)) ==>
              r == Failure(ZboziKonverzeException(PrivateKeyMandatory))
    ensures r.Success? ==> Valid(r.value)
    ensures r.Success? ==> r.value.shopId == shopId.value && r.value.privateKey == privateKey.value
    ensures r.Success? ==> !r.value.sandbox && r.value.cart == []
    ensures r.Success? ==> forall p :: IsOrderAttribute(p) ==> PropertyValue(r.value, p) == Null
  {
    if IsNullOrEmptyString(shopId) then
      Failure(ZboziKonverzeException(ShopIdMandatory))
    else if IsNullOrEmptyString(privateKey) then
      Failure(ZboziKonverzeException(PrivateKeyMandatory))
    else
      Success(Order(privateKey.value, shopId.value, None, None, None, None, None, None, None, None, [], false))
  }

  // ---------------------------------------------------------------------------
  // Single-property setters
  // ---------------------------------------------------------------------------

  /** `useSandbox($val)`: only the sandbox flag changes. */
  function UseSandbox(o: Order, val: bool): (r: Order)
    ensures PropertyValue(r, Sandbox) == JBool(val)
    ensures forall p :: p != Sandbox ==> PropertyValue(r, p) == PropertyValue(o, p)
  {
    o.(sandbox := val)
  }

  /** `setEmail($email)`: only the email changes. */
  function SetEmail(o: Order, email: Value): (r: Order)
    ensures PropertyValue(r, Email) == EncodeValue(email)
    ensures forall p :: p != Email ==> PropertyValue(r, p) == PropertyValue(o, p)
  {
    o.(email := email)
  }

  /** `addOrderId($orderId)`: despite its name it overwrites the order id. */
  function AddOrderId(o: Order, orderId: Value): (r: Order)
    ensures PropertyValue(r, OrderId) == EncodeValue(orderId)
    ensures forall p :: p != OrderId ==> PropertyValue(r, p) == PropertyValue(o, p)
  {
    o.(orderId := orderId)
  }

  /** `addTotalPrice($totalPrice)`: despite its name it overwrites the total. */
  function AddTotalPrice(o: Order, totalPrice: Value): (r: Order)
    ensures PropertyValue(r, TotalPrice) == EncodeValue(totalPrice)
    ensures forall p :: p != TotalPrice ==> PropertyValue(r, p) == PropertyValue(o, p)
  {
    o.(totalPrice := totalPrice)
  }

  // ---------------------------------------------------------------------------
  // Cart
  // ---------------------------------------------------------------------------

  /** `addProduct($productName)`: appends an item that has only its name set;
      no other property changes. */
  function AddProduct(o: Order, productName: Value): (r: Order)
    ensures |r.cart| == |o.cart| + 1 && r.cart[..|o.cart|] == o.cart
    ensures r.cart[|o.cart|].productName == productName
    ensures r.cart[|o.cart|].itemId == None && r.cart[|o.cart|].unitPrice == None
            && r.cart[|o.cart|].quantity == None
    ensures forall p :: p != Cart ==> PropertyValue(r, p) == PropertyValue(o, p)
  {
    var item := EmptyItem.(productName := productName);
    o.(cart := o.cart + [item])
  }

  /** `addProductItemId($itemId)`: appends an item that has only its item id
      set; no other property changes. */
  function AddProductItemId(o: Order, itemId: Value): (r: Order)
    ensures |r.cart| == |o.cart| + 1 && r.cart[..|o.cart|] == o.cart
    ensures r.cart[|o.cart|].itemId == itemId
    ensures r.cart[|o.cart|].productName == None && r.cart[|o.cart|].unitPrice == None
            && r.cart[|o.cart|].quantity == None
    ensures forall p :: p != Cart ==> PropertyValue(r, p) == PropertyValue(o, p)
  {
    var item := EmptyItem.(itemId := itemId);
    o.(cart := o.cart + [item])
  }

  /** `addCartItem($cartItem)`: appends one item. Each of its four properties
      is copied exactly when its key exists in the array (`array_key_exists`,
      so a key holding `null` counts); otherwise it stays `null`. */
  function AddCartItem(o: Order, cartItem: Attributes): (r: Order)
    ensures |r.cart| == |o.cart| + 1 && r.cart[..|o.cart|] == o.cart
    ensures "productName" in cartItem ==> r.cart[|o.cart|].productName == cartItem["productName"]
    ensures "productName" !in cartItem ==> r.cart[|o.cart|].productName == None
    ensures "itemId" in cartItem ==> r.cart[|o.cart|].itemId == cartItem["itemId"]
    ensures "itemId" !in cartItem ==> r.cart[|o.cart|].itemId == None
    ensures "unitPrice" in cartItem ==> r.cart[|o.cart|].unitPrice == cartItem["unitPrice"]
    ensures "unitPrice" !in cartItem ==> r.cart[|o.cart|].unitPrice == None
    ensures "quantity" in cartItem ==> r.cart[|o.cart|].quantity == cartItem["quantity"]
    ensures "quantity" !in cartItem ==> r.cart[|o.cart|].quantity == None
    ensures forall p :: p != Cart ==> PropertyValue(r, p) == PropertyValue(o, p)
  {
    var item := CartItem(
      if "productName" in cartItem then cartItem["productName"] else None,
      if "itemId" in cartItem then cartItem["itemId"] else None,
      if "unitPrice" in cartItem then cartItem["unitPrice"] else None,
      if "quantity" in cartItem then cartItem["quantity"] else None);
    o.(cart := o.cart + [item])
  }

  // ---------------------------------------------------------------------------
  // Bulk assignment
  // ---------------------------------------------------------------------------

  /** `setOrder($orderAttributes)`: assigns all eight order attributes from the
      array, whatever they held before; a missing key reads as `null` and so
      clears the attribute. Credentials, cart and sandbox are untouched. */
  function SetOrder(o: Order, orderAttributes: Attributes): (r: Order)
    ensures forall p :: IsOrderAttribute(p) && PropertyName(p) in orderAttributes ==>
              PropertyValue(r, p) == EncodeValue(orderAttributes[PropertyName(p)])
    ensures forall p :: IsOrderAttribute(p) && PropertyName(p) !in orderAttributes ==>
              PropertyValue(r, p) == Null
    ensures forall p :: !IsOrderAttribute(p) ==> PropertyValue(r, p) == PropertyValue(o, p)
  {
    o.(email := Lookup(orderAttributes, "email"),
       deliveryType := Lookup(orderAttributes, "deliveryType"),
       deliveryPrice := Lookup(orderAttributes, "deliveryPrice"),
       deliveryDate := Lookup(orderAttributes, "deliveryDate"),
       orderId := Lookup(orderAttributes, "orderId"),
       otherCosts := Lookup(orderAttributes, "otherCosts"),
       paymentType := Lookup(orderAttributes, "paymentType"),
       totalPrice := Lookup(orderAttributes, "totalPrice"))
  }

  // ---------------------------------------------------------------------------
  // Endpoint
  // ---------------------------------------------------------------------------

  const Scheme: string := "https://"
  const DomainPlaceholder: string := "%%DOMAIN%%"
  const ActionPath: string := "/action/"
  const ShopIdPlaceholder: string := "%%SHOP_ID%%"
  const ConversionPath: string := "/conversion/backend"

  /** `BASE_URL`, `https://%%DOMAIN%%/action/%%SHOP_ID%%/conversion/backend`,
      spelled out piece by piece. */
  const BaseUrl: string := Scheme + (DomainPlaceholder + (ActionPath + (ShopIdPlaceholder + ConversionPath)))

  const SandboxDomain: string := "sandbox.zbozi.cz"
  const ProductionDomain: string := "www.zbozi.cz"

  /** The host the sandbox flag selects. */
  function Host(sandbox: bool): string {
    if sandbox then SandboxDomain else ProductionDomain
  }

  /** `getUrl()`: the shop id is substituted first, then the domain. Because
      the domain substitution scans the whole URL, a domain placeholder inside
      the shop id is expanded as well. */
  function GetUrl(o: Order): (url: string)
    ensures url == Scheme + Host(o.sandbox) + ActionPath
                   + StrReplace(DomainPlaceholder, Host(o.sandbox), o.shopId)
                   + ConversionPath
  {
    var url := BaseUrl;
    var url := StrReplace(ShopIdPlaceholder, o.shopId, url);
    var url := if o.sandbox then StrReplace(DomainPlaceholder, SandboxDomain, url)
               else StrReplace(DomainPlaceholder, ProductionDomain, url);
    ShopIdFilled(o.shopId);
    DomainFilled(o.shopId, Host(o.sandbox));
    UrlRegrouped(Host(o.sandbox), StrReplace(DomainPlaceholder, Host(o.sandbox), o.shopId));
    url
  }

  /** Neither the scheme nor the action path holds a `%`, the first character
      of both placeholders. */
  lemma FixedPartsHoldNoPercent()
    ensures forall i :: 0 <= i < |Scheme| ==> Scheme[i] != '%'
    ensures forall i :: 0 <= i < |ActionPath| ==> ActionPath[i] != '%'
  {
  }

  /** The fixed tail of the URL shares no character with either placeholder:
      it is written in lower case and `/`, the placeholders in upper case,
      `%` and `_`. */
  lemma ConversionPathSharesNoChar()
    ensures SharesNoChar(ConversionPath, DomainPlaceholder)
    ensures SharesNoChar(ConversionPath, ShopIdPlaceholder)
  {
    ConversionPathIsLower();
    PlaceholdersAreUpper();
  }

  /** A character of a path: a lower-case letter or `/`. */
  predicate IsPathChar(c: char) {
    ('a' <= c <= 'z') || c == '/'
  }

  /** A character of a placeholder: an upper-case letter, `%` or `_`. */
  predicate IsPlaceholderChar(c: char) {
    ('A' <= c <= 'Z') || c == '%' || c == '_'
  }

  lemma ConversionPathIsLower()
    ensures forall j :: 0 <= j < |ConversionPath| ==> IsPathChar(ConversionPath[j])
  {
  }

  lemma PlaceholdersAreUpper()
    ensures forall k :: 0 <= k < |DomainPlaceholder| ==> IsPlaceholderChar(DomainPlaceholder[k])
    ensures forall k :: 0 <= k < |ShopIdPlaceholder| ==> IsPlaceholderChar(ShopIdPlaceholder[k])
  {
  }

  /** No occurrence of the shop id placeholder starts inside the domain
      placeholder when a `/` follows it. */
  lemma DomainSlotHoldsNoShopId(b: string)
    requires |b| > 0 && b[0] == '/'
    ensures forall i :: 0 <= i < |DomainPlaceholder| ==> !MatchAt(DomainPlaceholder + b, ShopIdPlaceholder, i)
  {
    forall i | 0 <= i < |DomainPlaceholder|
      ensures !MatchAt(DomainPlaceholder + b, ShopIdPlaceholder, i)
    {
      MatchAtChar(DomainPlaceholder + b, ShopIdPlaceholder, i, 0);
      MatchAtChar(DomainPlaceholder + b, ShopIdPlaceholder, i, 1);
      MatchAtChar(DomainPlaceholder + b, ShopIdPlaceholder, i, 2);
    }
  }

  /** The first substitution puts the shop id, verbatim, into its slot. */
  lemma ShopIdFilled(shopId: string)
    ensures StrReplace(ShopIdPlaceholder, shopId, BaseUrl)
            == Scheme + (DomainPlaceholder + (ActionPath + (shopId + ConversionPath)))
  {
    FixedPartsHoldNoPercent();
    DomainSlotHoldsNoShopId(ActionPath + (ShopIdPlaceholder + ConversionPath));
    ConversionPathSharesNoChar();
    FillLastSlot(ShopIdPlaceholder, shopId, Scheme, DomainPlaceholder, ActionPath, ConversionPath);
  }

  /** `str_replace` over `a + d + m + search + c`, where the only occurrence
      is the one written out. */
  lemma FillLastSlot(search: string, replace: string, a: string, d: string, m: string, c: string)
    requires |search| > 0
    requires forall i :: 0 <= i < |a| ==> a[i] != search[0]
    requires forall i :: 0 <= i < |d| ==> !MatchAt(d + (m + (search + c)), search, i)
    requires forall i :: 0 <= i < |m| ==> m[i] != search[0]
    requires SharesNoChar(c, search)
    ensures StrReplace(search, replace, a + (d + (m + (search + c)))) == a + (d + (m + (replace + c)))
  {
    SharesNoCharNotContains(c, search);
    StrReplaceAbsent(search, replace, c);
    StrReplaceHead(search, replace, c);
    StrReplaceSkipFirstChar(search, replace, m, search + c);
    StrReplaceSkip(search, replace, d, m + (search + c));
    StrReplaceSkipFirstChar(search, replace, a, d + (m + (search + c)));
  }

  /** The second substitution fills the domain slot and, since the fixed text
      after the shop id cannot take part in an occurrence, otherwise works on
      the shop id alone. */
  lemma DomainFilled(shopId: string, host: string)
    ensures StrReplace(DomainPlaceholder, host, Scheme + (DomainPlaceholder + (ActionPath + (shopId + ConversionPath))))
            == Scheme + (host + (ActionPath + (StrReplace(DomainPlaceholder, host, shopId) + ConversionPath)))
  {
    FixedPartsHoldNoPercent();
    ConversionPathSharesNoChar();
    FillFirstSlot(DomainPlaceholder, host, Scheme, ActionPath, shopId, ConversionPath);
  }

  /** `str_replace` over `a + search + m + x + c`, where nothing before `x`
      but the written-out occurrence matches and `c` cannot take part in one. */
  lemma FillFirstSlot(search: string, replace: string, a: string, m: string, x: string, c: string)
    requires |search| > 0
    requires forall i :: 0 <= i < |a| ==> a[i] != search[0]
    requires forall i :: 0 <= i < |m| ==> m[i] != search[0]
    requires SharesNoChar(c, search)
    ensures StrReplace(search, replace, a + (search + (m + (x + c))))
            == a + (replace + (m + (StrReplace(search, replace, x) + c)))
  {
    StrReplaceTail(search, replace, x, c);
    StrReplaceSkipFirstChar(search, replace, m, x + c);
    StrReplaceHead(search, replace, m + (x + c));
    StrReplaceSkipFirstChar(search, replace, a, search + (m + (x + c)));
  }

  /** Regrouping the filled template. */
  lemma UrlRegrouped(host: string, shop: string)
    ensures Scheme + (host + (ActionPath + (shop + ConversionPath)))
            == Scheme + host + ActionPath + shop + ConversionPath
  {
  }

  // ---------------------------------------------------------------------------
  // Transport and reply
  // ---------------------------------------------------------------------------

  /** What `sendRequest` posts: the URL and the object's properties. */
  datatype Request = Request(url: string, body: seq<(string, Json)>)

  /** What comes back from the transport. `NoResponse` is a read that
      returned `false`: no connection, or any answer with an HTTP error status
      (400 or above), since the stream context does not ask for error bodies.
      Otherwise the body arrives and `status` is its decoded `status` entry,
      or `None` when the body has no such entry or does not decode. */
  datatype Reply = NoResponse | Response(status: Option<int>)

  /** `sendRequest($url)`, with the HTTP exchange as a parameter. Only a
      status of exactly 200 is accepted. */
  function SendRequest(o: Order, url: string, exchange: Request -> Reply): (r: Result<bool, Exception>)
    ensures r.Success? <==> exchange(Request(url, Payload(o))) == Response(Some(200))
    ensures r.Success? ==> r.value
    ensures exchange(Request(url, Payload(o))).NoResponse? <==>
              r == Failure(ZboziKonverzeException(ConnectionFailed))
    ensures exchange(Request(url, Payload(o))).Response? && !r.Success? ==>
              r == Failure(ZboziKonverzeException(NotAccepted))
  {
    var reply := exchange(Request(url, Payload(o)));
    match reply
    case NoResponse => Failure(ZboziKonverzeException(ConnectionFailed))
    case Response(status) =>
      if status == Some(200) then Success(true)
      else Failure(ZboziKonverzeException(NotAccepted))
  }

  /** `send()`: builds the URL, sends, and rethrows any failure as a new
      `ZboziKonverzeException` with the same message. */
  function Send(o: Order, exchange: Request -> Reply): (r: Result<bool, Exception>)
    ensures r.Success? <==> exchange(Request(GetUrl(o), Payload(o))) == Response(Some(200))
    ensures r.Success? ==> r.value
    ensures r.Failure? ==> r.error.message == SendRequest(o, GetUrl(o), exchange).error.message
    ensures r.Failure? ==> r.error.message == ConnectionFailed || r.error.message == NotAccepted
  {
    var url := GetUrl(o);
    match SendRequest(o, url, exchange)
    case Success(status) => Success(status)
    case Failure(e) => Failure(ZboziKonverzeException(e.message))
  }
}
