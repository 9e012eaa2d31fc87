# ZboziKonverze order conversion client, modelled in Dafny

This project models `ZboziKonverze`, the PHP client that reports a completed
order (a "conversion") to the Zbozi.cz price-comparison service. One
`ZboziKonverze` object collects the shop's credentials, the order attributes
and the cart. On `send()` it builds the endpoint URL, posts every property of
the object as JSON, and reads the service's `status` reply. The outcome is
`true` or a `ZboziKonverzeException`.

The PHP object is mutable. Here it is an immutable `Order` record, and each
public method is a pure function that returns the updated record:

- `wrappers.dfy` holds `Option` and `Result`. `Option.None` is PHP's `null`. `Result.Failure` is a thrown exception.
- `php_strings.dfy` models the two PHP built-ins the client uses. `Trim` is `trim` with its default character list. `StrReplace` is `str_replace` with one search string.
- `zbozi_konverze.dfy` holds the data model (`Order`, `CartItem`, `Property`, `Json`) and every method of the class. The contracts are stated per declared property through `PropertyValue`.
- `zbozi_konverze_properties.dfy` holds properties that relate several calls. The payload reads back to the order. Setters overwrite. `setOrder` forgets what was there before. The URL carries the sandbox host exactly when the flag is set. Only status 200 is accepted.
- `session.dfy` runs any sequence of mutator calls on an object. The credentials survive every sequence, and the cart only grows at its end.

Some behaviour of the code that is easy to misread:

- `setOrder` assigns all eight attributes unconditionally. A missing key reads as `null`, so an attribute the array omits is cleared.
- A reply is accepted only when its `status` equals 200.
- The payload is `get_object_vars($this)`. It lists every declared property, the private `sandbox` included. A property that was never set is serialised as `null`.
- A rejected reply always gives the fixed message `Request was not accepted.`.
- `deliveryDate` and `totalPrice` are ordinary attributes of the order.

## Model

| member | source | states |
|---|---|---|
| PhpStrings.TrimStart | ZboziKonverze.php:161 | the result is a suffix of the input, everything dropped is a strippable character, and the result does not start with one |
| PhpStrings.TrimEnd | ZboziKonverze.php:161 | the result is a prefix of the input, everything dropped is a strippable character, and the result does not end with one |
| PhpStrings.Trim | ZboziKonverze.php:161 | `trim` returns a contiguous piece of the input with only strippable characters (space, tab, newline, carriage return, NUL, vertical tab) before and after it; the piece is empty exactly when the input consists only of such characters, and otherwise neither starts nor ends with one |
| PhpStrings.TrimmedPieceUnique | ZboziKonverze.php:161 | at most one piece of a string meets `Trim`'s contract, so the contract fixes `trim`'s result |
| PhpStrings.TrimSurrounded | ZboziKonverze.php:161 | `trim` of a strippable prefix, a text that neither starts nor ends with a strippable character, and a strippable suffix gives back exactly that text |
| PhpStrings.StrReplace | ZboziKonverze.php:340-346 | `str_replace` with one search string; the function has no contract of its own and is characterised by `StrReplaceAbsent`, `StrReplaceHead`, `StrReplaceSkip` and `StrReplaceTail` |
| PhpStrings.StrReplaceAbsent | ZboziKonverze.php:340-346 | `str_replace` returns a subject that does not contain the search string unchanged |
| PhpStrings.StrReplaceHead | ZboziKonverze.php:340-346 | an occurrence at the start of the subject is replaced and the scan resumes right after it, never inside the inserted text |
| PhpStrings.StrReplaceSkip | ZboziKonverze.php:340-346 | text in which no occurrence starts is copied through, and the replacement continues on what follows |
| PhpStrings.StrReplaceTail | ZboziKonverze.php:340-346 | a tail that shares no character with the search string is left alone, and only the head is rewritten |
| ZboziKonverze.IsNullOrEmptyString | ZboziKonverze.php:160-162 | true exactly when the value is null or consists only of characters `trim` strips |
| ZboziKonverze.New | ZboziKonverze.php:172-187 | construction succeeds iff both credentials are set and each holds a non-strippable character; the shop id is checked first, so its message wins when both are bad; on success the credentials are stored untrimmed, the sandbox is off, the cart is empty and every order attribute is null |
| ZboziKonverze.UseSandbox | ZboziKonverze.php:150-152 | the sandbox property becomes the argument and every other property is unchanged |
| ZboziKonverze.SetEmail | ZboziKonverze.php:194-197 | the email becomes the argument and every other property is unchanged |
| ZboziKonverze.AddOrderId | ZboziKonverze.php:204-207 | the order id is overwritten with the argument and every other property is unchanged |
| ZboziKonverze.AddTotalPrice | ZboziKonverze.php:266-269 | the total price is overwritten with the argument and every other property is unchanged |
| ZboziKonverze.AddProduct | ZboziKonverze.php:214-219 | the cart grows by one item at the end with only its product name set; earlier items and all other properties are unchanged |
| ZboziKonverze.AddProductItemId | ZboziKonverze.php:226-231 | the cart grows by one item at the end with only its item id set; earlier items and all other properties are unchanged |
| ZboziKonverze.AddCartItem | ZboziKonverze.php:242-259 | the cart grows by one item at the end; each of its four fields is the array's value when the key exists, even a null value, and null otherwise; the old cart is a prefix and nothing else changes |
| ZboziKonverze.SetOrder | ZboziKonverze.php:285-294 | each of the eight order attributes takes the array's value for its key, or null when the key is missing; credentials, cart and sandbox are untouched |
| ZboziKonverze.EncodeItem | ZboziKonverze.php:373-401 | a cart item serialises as an object of its four public properties; no contract of its own, its partner is `ItemRoundTrip` |
| ZboziKonverze.EncodeCart | ZboziKonverze.php:307 | the cart serialises as an array of the same length holding each item's encoding at its position |
| ZboziKonverze.Payload | ZboziKonverze.php:307 | the serialised object lists all twelve declared properties, private `sandbox` included, in declaration order, each with its current value |
| ZboziKonverze.GetUrl | ZboziKonverze.php:337-349 | the URL is `https://` + the host the sandbox flag selects + `/action/` + the shop id with any domain placeholder in it expanded + `/conversion/backend` |
| ZboziKonverze.ShopIdFilled | ZboziKonverze.php:340 | the first substitution puts the shop id verbatim into the template's one shop-id slot |
| ZboziKonverze.DomainFilled | ZboziKonverze.php:342-346 | the second substitution fills the domain slot and otherwise rewrites only the shop id |
| ZboziKonverze.SendRequest | ZboziKonverze.php:305-330 | the result is `true` iff the transport, given the URL and the payload, answers with status exactly 200; a read that returns `false` (no connection, or an HTTP error status of 400 or above) gives the connection message; any body that arrives without status 200 gives `Request was not accepted.` |
| ZboziKonverze.Send | ZboziKonverze.php:358-369 | succeeds iff the reply to the request for this object's URL and payload has status 200; a failure carries `sendRequest`'s message unchanged, and it is one of the two fixed messages |
| ZboziKonverzeProperties.ItemRoundTrip | ZboziKonverze.php:373-401 | every cart item, encoded as an object of its four properties, reads back as itself |
| ZboziKonverzeProperties.CartRoundTrip | ZboziKonverze.php:373-401 | every cart, encoded as objects of the four `CartItem` properties, reads back as itself |
| ZboziKonverzeProperties.PayloadRoundTrip | ZboziKonverze.php:307 | the serialised payload reads back to the exact order, so nothing is lost in serialisation |
| ZboziKonverzeProperties.PayloadInjective | ZboziKonverze.php:307 | two orders with the same payload are equal |
| ZboziKonverzeProperties.PropertiesDetermineOrder | ZboziKonverze.php:66-143 | an order is determined by the values of its declared properties, so the per-property setter contracts fix their results completely |
| ZboziKonverzeProperties.ConstructionSucceedsIff | ZboziKonverze.php:160-187 | construction succeeds iff both credentials are non-null and `trim` leaves something of each |
| ZboziKonverzeProperties.BothMissingReportsShopId | ZboziKonverze.php:174-184 | with both credentials unusable, the exception is `shopId si mandatory` |
| ZboziKonverzeProperties.WhitespaceShopIdRejected | ZboziKonverze.php:174-175 | a shop id of spaces, tabs and newlines is refused although the private key is good |
| ZboziKonverzeProperties.FreshPayload | ZboziKonverze.php:172-187 | a freshly constructed object serialises the two credentials, eight nulls, an empty cart and `sandbox` false |
| ZboziKonverzeProperties.SettersKeepValid | ZboziKonverze.php:150-207 | `useSandbox`, `setEmail`, `addOrderId` and `addTotalPrice` keep both credentials usable |
| ZboziKonverzeProperties.SettersLastWriteWins | ZboziKonverze.php:150-269 | for each single-property setter, two calls in a row equal the second call alone |
| ZboziKonverzeProperties.AddCartItemGeneralisesAddProduct | ZboziKonverze.php:214-259 | `addCartItem` with only `productName` (resp. `itemId`) equals `addProduct` (resp. `addProductItemId`) |
| ZboziKonverzeProperties.AddCartItemIgnoresOtherKeys | ZboziKonverze.php:242-259 | arrays that agree on the four recognised keys append the same item; any other key has no effect |
| ZboziKonverzeProperties.CartCallsKeepValid | ZboziKonverze.php:214-259 | the three cart calls keep both credentials usable |
| ZboziKonverzeProperties.SetOrderForgetsPrevious | ZboziKonverze.php:285-294 | the result of `setOrder` does not depend on the order attributes the object held before |
| ZboziKonverzeProperties.SetOrderLastWriteWins | ZboziKonverze.php:285-294 | two `setOrder` calls equal the second alone |
| ZboziKonverzeProperties.SetOrderClearsOmittedKeys | ZboziKonverze.php:285-294 | with an array like the extended example's but with a zero `otherCosts`, a total price and delivery date set earlier become null, the zero `otherCosts` is assigned, and the cart is untouched |
| ZboziKonverzeProperties.SetOrderKeepsValid | ZboziKonverze.php:285-294 | `setOrder` keeps both credentials usable |
| ZboziKonverzeProperties.GetUrlVerbatimShopId | ZboziKonverze.php:337-349 | for a shop id without `%%DOMAIN%%`, the URL is `https://` + host + `/action/` + shop id + `/conversion/backend` |
| ZboziKonverzeProperties.GetUrlSandboxIff | ZboziKonverze.php:342-346 | the URL starts with `https://sandbox.zbozi.cz/` iff the sandbox flag is set, and with `https://www.zbozi.cz/` iff it is not |
| ZboziKonverzeProperties.ShopIdPlaceholderExpanded | ZboziKonverze.php:340-346 | a shop id equal to `%%DOMAIN%%` is replaced by the host too, because the domain substitution runs after the shop-id substitution |
| ZboziKonverzeProperties.GetUrlIgnoresOrderContent | ZboziKonverze.php:337-349 | each of `setOrder`, `addCartItem`, `addProduct`, `addProductItemId`, `setEmail`, `addOrderId` and `addTotalPrice` leaves the URL unchanged |
| ZboziKonverzeProperties.OnlyStatus200Accepted | ZboziKonverze.php:324-329 | a reply with status s is accepted iff s is exactly 200; any other status, or none, gives `Request was not accepted.` |
| ZboziKonverzeProperties.NoResponseIsConnectionFailure | ZboziKonverze.php:320-322 | a read that returns `false`, which includes any HTTP error status, gives `Unable to establish connection to ZboziKonverze service` |
| ZboziKonverzeProperties.SendKeepsSendRequestOutcome | ZboziKonverze.php:363-368 | `send` returns `sendRequest`'s result for the object's URL, and rethrows its failure with the identical message |
| Session.Apply | ZboziKonverze.php:150-294 | one mutator call keeps the credentials, keeps the old cart as a prefix, and grows the cart by one exactly for the cart calls |
| Session.Run | ZboziKonverze.php:150-294 | any sequence of mutator calls keeps the credentials, keeps the old cart as a prefix, and grows the cart by the number of cart calls |
| Session.RunKeepsValid | ZboziKonverze.php:172-294 | a constructed object keeps usable credentials through any sequence of calls |
| Session.SimpleExampleSession | ZboziKonverzeExampleSimple.php:12-15 | the simple example's calls give a cart of an item-id item followed by a named item, with email and order id set |

## Left out

- The HTTP exchange is left out: `stream_context_create`, `file_get_contents`, the `Content-type` header and the POST method. It is I/O, so it is a parameter `exchange: Request -> Reply`. The model only fixes what is handed to it (the URL and the payload) and how its answer is read.
- JSON text is left out. `json_encode` is modelled as the abstract `Json` tree it prints when it succeeds. `json_decode` of the reply is modelled as the optional `status` it yields. Only a body read with a non-error HTTP status reaches decoding. A body that does not decode, or has no `status`, gives `None`.
- The `json_encode` failure path is left out. PHP strings are byte strings, and `json_encode` returns `false` when a property is not valid UTF-8, for example a product name in Windows-1250. `sendRequest` would then post `false` as the body. Here strings are Unicode text, so `Request` always carries `Payload(o)`.
- The transport's error statuses are not told apart. The stream context sets no `ignore_errors`, so `file_get_contents` returns `false` for any HTTP status of 400 or above, just as for a failed connection. Both are the one `Reply.NoResponse`, reported as the connection failure.
- PHP's loose `==` on the status is left out. A string `"200"` or a float `200.0` would also compare equal to 200 in PHP. The status is modelled as an integer, so only the integer 200 is accepted.
- Float prices are left out. `unitPrice`, `deliveryPrice`, `otherCosts` and `totalPrice` are passed through and never computed with, so `Scalar` carries whole numbers or text.
- Non-string credentials are left out. PHP's `trim` would convert an integer shop id (as in the examples) to a string. Credentials are modelled as strings or null.
- `useSandbox` is modelled with a boolean argument. PHP stores any value and later tests its truthiness.
- `PRIVATE_KEY` and `SHOP_ID` are public properties in PHP, so a caller could reassign them after construction. The model offers no operation for that.
- The PHP notice for reading a missing key in `setOrder` is a diagnostic side effect, so it is left out. The value read is `null`, as modelled.
- The exception class hierarchy is left out. `ZboziKonverzeException` is one datatype carrying the message. `send` catches every `Exception`, but in the model `sendRequest` throws nothing else.
- Overriding the protected `sendRequest` in a subclass is left out.
- The example scripts are left out as programs: they send over the network and log. The simple example's calls appear as `Session.SimpleExampleSession`. The extended example passes a float `otherCosts` of 5.33, which `Scalar` cannot carry, so its sequence is not modelled. `SetOrderClearsOmittedKeys` uses a variant of its `setOrder` array with a zero `otherCosts`.
