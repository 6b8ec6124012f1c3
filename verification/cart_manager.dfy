/** `CartManager`: the single cart field and the create-or-mutate branching of every cart
    action, plus the customer and order calls. Each storefront round trip is replaced by
    the outcome the client delivered, passed in as a parameter; callbacks are delivered
    one at a time.
 */
module CartManager {
  import opened Wrappers
  import opened Storefront
  import opened Defaults

  // ---------------------------------------------------------------------------
  // Cart actions

  /** One line of a `cartLinesUpdate` mutation. */
  datatype LineUpdate = LineUpdate(id: Id, quantity: Int32)

  /** The cart mutation the manager sends. */
  datatype CartRequest =
    | CartCreate(merchandiseIds: seq<Id>)
    | CartLinesAdd(cartId: Id, merchandiseIds: seq<Id>)
    | CartLinesUpdate(cartId: Id, updates: seq<LineUpdate>)
    | CartLinesRemove(cartId: Id, lineIds: seq<Id>)

  /** What the client delivered for a cart mutation: a transport failure, or a response
      whose mutation payload may or may not carry a cart. */
  datatype MutationOutcome = TransportFailure | Response(cart: Option<Cart>)

  /** The effect of one cart action: the mutation sent (if any), the cart field afterwards,
      and the value handed to the completion handler (`None` when it is never called). */
  datatype CartStep = CartStep(request: Option<CartRequest>, cart: Option<Cart>, completion: Option<Option<Cart>>)

  /** The `CartResultHandler` argument: a response without a cart counts as a failure. */
  function CartResult(outcome: MutationOutcome): (r: Result<Cart>)
    ensures r.Success? <==> outcome.Response? && outcome.cart.Some?
    ensures r.Success? ==> r.value == outcome.cart.value
  {
    if outcome.Response? && outcome.cart.Some? then Success(outcome.cart.value) else Failure
  }

  /** The cart field once a mutation's response is handled: a returned cart replaces it
      wholesale, a failure keeps it. */
  function AfterResponse(cart: Option<Cart>, outcome: MutationOutcome): (r: Option<Cart>)
    ensures CartResult(outcome).Success? ==> r == Some(CartResult(outcome).value)
    ensures CartResult(outcome).Failure? ==> r == cart
  {
    match CartResult(outcome) case Success(c) => Some(c) case Failure => cart
  }

  /** The handler shared by `addItem`, `updateQuantity` and `removeItem`: when a request was
      sent, a returned cart replaces the field wholesale, a failure keeps it, and the
      completion receives the field as it then stands. */
  function Perform(cart: Option<Cart>, request: Option<CartRequest>, outcome: MutationOutcome): (r: CartStep)
    ensures r.request == request
    ensures request.None? ==> r.cart == cart && r.completion.None?
    ensures request.Some? ==> r.completion == Some(r.cart)
    ensures request.Some? && CartResult(outcome).Success? ==> r.cart == Some(CartResult(outcome).value)
    ensures CartResult(outcome).Failure? ==> r.cart == cart
  {
    if request.None? then CartStep(None, cart, None)
    else
      var after := AfterResponse(cart, outcome);
      CartStep(request, after, Some(after))
  }

  /** `addItem(variant:)`: create a cart holding the variant when none exists, otherwise add
      the variant to the live cart. */
  function AddItem(cart: Option<Cart>, variant: Id, outcome: MutationOutcome): (r: CartStep)
    ensures cart.None? ==> r.request == Some(CartCreate([variant]))
    ensures cart.Some? ==> r.request == Some(CartLinesAdd(cart.value.id, [variant]))
    ensures outcome == Response(r.cart) && r.cart.Some? <==> CartResult(outcome).Success?
    ensures CartResult(outcome).Failure? ==> r.cart == cart
    ensures r.completion == Some(r.cart)
  {
    var request := if cart.Some? then CartLinesAdd(cart.value.id, [variant]) else CartCreate([variant]);
    Perform(cart, Some(request), outcome)
  }

  /** `updateQuantity(variant:quantity:)`: one line update on the live cart; with no cart it
      falls back to creating a cart with the id as merchandise, and the quantity is dropped. */
  function UpdateQuantity(cart: Option<Cart>, id: Id, quantity: Int32, outcome: MutationOutcome): (r: CartStep)
    ensures cart.None? ==> r.request == Some(CartCreate([id]))
    ensures cart.Some? ==> r.request == Some(CartLinesUpdate(cart.value.id, [LineUpdate(id, quantity)]))
    ensures outcome == Response(r.cart) && r.cart.Some? <==> CartResult(outcome).Success?
    ensures CartResult(outcome).Failure? ==> r.cart == cart
    ensures r.completion == Some(r.cart)
  {
    Perform(cart, Some(UpdateRequest(cart, id, quantity)), outcome)
  }

  /** The mutation `updateQuantity` sends, which does not depend on the answer. */
  function UpdateRequest(cart: Option<Cart>, id: Id, quantity: Int32): CartRequest
  {
    if cart.Some? then CartLinesUpdate(cart.value.id, [LineUpdate(id, quantity)]) else CartCreate([id])
  }

  /** `removeItem(cartLineId:)`: remove the line from the live cart; with no cart nothing is
      sent and the completion handler is never called. */
  function RemoveItem(cart: Option<Cart>, lineId: Id, outcome: MutationOutcome): (r: CartStep)
    ensures cart.None? ==> r == CartStep(None, None, None)
    ensures cart.Some? ==> r.request == Some(CartLinesRemove(cart.value.id, [lineId]))
    ensures cart.Some? ==> r.completion == Some(r.cart)
    ensures cart.Some? && CartResult(outcome).Success? ==> r.cart == Some(CartResult(outcome).value)
    ensures CartResult(outcome).Failure? ==> r.cart == cart
  {
    var request := if cart.Some? then Some(CartLinesRemove(cart.value.id, [lineId])) else None;
    Perform(cart, request, outcome)
  }

  /** `resetCart()`: drop the cart locally; nothing is sent to the storefront. */
  function ResetCart(cart: Option<Cart>): (r: CartStep)
    ensures r.request.None? && r.cart.None? && r.completion.None?
  {
    CartStep(None, None, None)
  }

  /** The update fallback is indistinguishable from adding the id to a fresh cart: the
      requested quantity never reaches the storefront. */
  lemma UpdateWithoutCartIsCreate(id: Id, q1: Int32, q2: Int32, outcome: MutationOutcome)
    ensures UpdateQuantity(None, id, q1, outcome) == AddItem(None, id, outcome)
    ensures UpdateQuantity(None, id, q1, outcome) == UpdateQuantity(None, id, q2, outcome)
  {
  }

  /** After a reset, a removal sends nothing and an add starts a new cart. */
  lemma AfterReset(cart: Option<Cart>, lineId: Id, variant: Id, outcome: MutationOutcome)
    ensures RemoveItem(ResetCart(cart).cart, lineId, outcome) == CartStep(None, None, None)
    ensures AddItem(ResetCart(cart).cart, variant, outcome).request == Some(CartCreate([variant]))
  {
  }

  /** A cart action together with the outcome its request received. */
  datatype CartEvent =
    | Add(variant: Id, outcome: MutationOutcome)
    | Update(id: Id, quantity: Int32, outcome: MutationOutcome)
    | Remove(lineId: Id, outcome: MutationOutcome)
    | Reset

  /** The manager's transition for one event. */
  function Step(cart: Option<Cart>, e: CartEvent): (r: CartStep)
    ensures e.Reset? ==> r.cart.None?
    ensures !e.Reset? && CartResult(e.outcome).Failure? ==> r.cart == cart
  {
    match e
    case Add(v, o) => AddItem(cart, v, o)
    case Update(id, q, o) => UpdateQuantity(cart, id, q, o)
    case Remove(l, o) => RemoveItem(cart, l, o)
    case Reset => ResetCart(cart)
  }

  /** The cart field after events delivered one at a time. */
  function Run(cart: Option<Cart>, events: seq<CartEvent>): Option<Cart>
    decreases |events|
  {
    if |events| == 0 then cart else Run(Step(cart, events[0]).cart, events[1..])
  }

  /** A cart some response in `events` carried. */
  ghost predicate Returned(c: Cart, events: seq<CartEvent>)
  {
    exists i :: 0 <= i < |events| && !events[i].Reset? && events[i].outcome == Response(Some(c))
  }

  ghost predicate HasReset(events: seq<CartEvent>)
  {
    exists i :: 0 <= i < |events| && events[i].Reset?
  }

  /** The manager never fabricates a cart: after any run the field is the initial cart or a
      cart some response returned, and it is absent only if it started absent or was reset. */
  lemma {:induction false} RunOnlyHoldsReturnedCarts(cart: Option<Cart>, events: seq<CartEvent>)
    ensures Run(cart, events).Some? && Run(cart, events) != cart ==> Returned(Run(cart, events).value, events)
    ensures Run(cart, events).None? ==> cart.None? || HasReset(events)
    decreases |events|
  {
    if |events| > 0 {
      var next := Step(cart, events[0]).cart;
      var rest := events[1..];
      RunOnlyHoldsReturnedCarts(next, rest);
      var final := Run(cart, events);
      assert final == Run(next, rest);
      if final.Some? && final != cart {
        if final != next {
          var i :| 0 <= i < |rest| && !rest[i].Reset? && rest[i].outcome == Response(Some(final.value));
          assert events[i + 1] == rest[i];
        } else {
          assert !events[0].Reset?;
          assert CartResult(events[0].outcome).Success?;
          assert events[0].outcome == Response(Some(final.value));
        }
      }
      if final.None? && cart.Some? {
        if next.None? {
          assert events[0].Reset?;
        } else {
          var i :| 0 <= i < |rest| && rest[i].Reset?;
          assert events[i + 1] == rest[i];
        }
      }
    }
  }

  // ---------------------------------------------------------------------------
  // Product queries and the preview cart

  /** What the client delivered for a product listing query. */
  datatype ProductsOutcome = ProductsFailure | ProductsSuccess(products: seq<Product>)

  /** `getRandomProduct`: on success the callback receives some listed product (or nothing
      when the list is empty); on failure the callback is never called. The random choice is
      the arbitrary index `pick`. */
  function GetRandomProduct(outcome: ProductsOutcome, pick: nat): (r: Option<Option<Product>>)
    ensures r.None? <==> outcome.ProductsFailure?
    ensures r.Some? && r.value.Some? ==> r.value.value in outcome.products
    ensures r.Some? ==> (r.value.None? <==> |outcome.products| == 0)
  {
    match outcome
    case ProductsFailure => None
    case ProductsSuccess(ps) =>
      if |ps| == 0 then Some(None) else Some(Some(ps[pick % |ps|]))
  }

  /** The effect of `injectRandomCartItem` on the global `cache` and the manager's cart. */
  datatype InjectStep = InjectStep(cache: Option<Cart>, cart: Option<Cart>, request: Option<CartRequest>)

  /** `injectRandomCartItem()`: reuse the cached cart when there is one; otherwise add the
      first variant of the product the random query delivered (`delivered` is `None` when
      its callback never ran) and store the completion's cart in both places. */
  function InjectRandomCartItem(cache: Option<Cart>, cart: Option<Cart>, delivered: Option<Option<Product>>, outcome: MutationOutcome): (r: InjectStep)
    ensures cache.Some? ==> r == InjectStep(cache, cache, None)
    ensures cache.None? && r.request.Some? ==>
              delivered.Some? && delivered.value.Some? && |delivered.value.value.variants| > 0
              && r.request == AddItem(cart, delivered.value.value.variants[0].id, outcome).request
              && r.cache == r.cart == AddItem(cart, delivered.value.value.variants[0].id, outcome).cart
    ensures cache.None? && r.request.None? ==> r == InjectStep(cache, cart, None)
    ensures cache.None? && delivered.Some? && delivered.value.Some? && |delivered.value.value.variants| > 0 ==> r.request.Some?
  {
    if cache.Some? then InjectStep(cache, cache, None)
    else if delivered.Some? && delivered.value.Some? && |delivered.value.value.variants| > 0 then
      var step := AddItem(cart, delivered.value.value.variants[0].id, outcome);
      InjectStep(step.completion.value, step.completion.value, step.request)
    else InjectStep(cache, cart, None)
  }

  /** Once an injection has filled the cache, every later one reuses it: nothing is sent,
      whatever the product query and the mutation answer, and the cart stays the cached
      one. A first injection fills the cache exactly when its add returned a cart. */
  lemma InjectionReusesCache(cart: Option<Cart>, delivered: Option<Option<Product>>, outcome: MutationOutcome,
                             delivered2: Option<Option<Product>>, outcome2: MutationOutcome)
    ensures var first := InjectRandomCartItem(None, cart, delivered, outcome);
            var second := InjectRandomCartItem(first.cache, first.cart, delivered2, outcome2);
            first.cache.Some? ==> second == InjectStep(first.cache, first.cache, None) && second.cart == first.cart
    ensures var first := InjectRandomCartItem(None, cart, delivered, outcome);
            cart.None? && first.request.Some? ==> (first.cache.Some? <==> CartResult(outcome).Success?)
  {
  }

  // ---------------------------------------------------------------------------
  // Customer calls

  /** The `customerAccessTokenCreate` payload. */
  datatype TokenPayload = TokenPayload(accessToken: Option<string>, userErrors: seq<UserError>)

  datatype TokenOutcome = TokenTransportFailure | TokenResponse(payload: Option<TokenPayload>)

  /** The effect of `loginCustomer`: the store afterwards, the token handed to the
      completion (absent on every failure), and the token a past-orders prefetch was sent
      with (its result is discarded). */
  datatype LoginResult = LoginResult(store: Store, token: Option<string>, prefetch: Option<string>)

  /** The access token a token outcome carries, if any. */
  function TokenOf(outcome: TokenOutcome): Option<string>
  {
    if outcome.TokenResponse? && outcome.payload.Some? then outcome.payload.value.accessToken else None
  }

  /** `loginCustomer`: a returned token is saved under "customerAccessToken", prefetches the
      past orders and completes with the token; a user error, an empty payload or a
      transport failure completes with nothing and stores nothing. */
  function LoginCustomer(store: Store, outcome: TokenOutcome): (r: LoginResult)
    ensures r.token.Some? <==> outcome.TokenResponse? && outcome.payload.Some? && outcome.payload.value.accessToken.Some?
    ensures r.token.Some? ==> r.token == outcome.payload.value.accessToken
    ensures r.token.Some? ==> r.store == store[CUSTOMER_ACCESS_TOKEN_KEY := StringValue(r.token.value)] && r.prefetch == r.token
    ensures r.token.None? ==> r.store == store && r.prefetch.None?
  {
    match TokenOf(outcome)
    case Some(t) => LoginResult(Put(store, CUSTOMER_ACCESS_TOKEN_KEY, StringValue(t)), Some(t), Some(t))
    case None => LoginResult(store, None, None)
  }

  /** After a successful login the stored token is what the orders screen will read. */
  lemma LoginThenTokenReadable(store: Store, outcome: TokenOutcome)
    ensures LoginCustomer(store, outcome).token.Some? ==>
              StringFor(LoginCustomer(store, outcome).store, CUSTOMER_ACCESS_TOKEN_KEY) == LoginCustomer(store, outcome).token
    ensures LoginCustomer(store, outcome).token.None? ==>
              StringFor(LoginCustomer(store, outcome).store, CUSTOMER_ACCESS_TOKEN_KEY) == StringFor(store, CUSTOMER_ACCESS_TOKEN_KEY)
  {
  }

  /** The `customerCreate` payload. */
  datatype CustomerPayload = CustomerPayload(customer: Option<Customer>, userErrors: seq<UserError>)

  datatype CustomerOutcome = CustomerTransportFailure | CustomerResponse(payload: Option<CustomerPayload>)

  /** `createCustomer`: the created customer, or nothing on a user error, an empty payload
      or a transport failure. */
  function CreateCustomer(outcome: CustomerOutcome): (r: Option<Customer>)
    ensures r.Some? <==> outcome.CustomerResponse? && outcome.payload.Some? && outcome.payload.value.customer.Some?
    ensures r.Some? ==> r == outcome.payload.value.customer
  {
    if outcome.CustomerResponse? && outcome.payload.Some? then outcome.payload.value.customer else None
  }

  // ---------------------------------------------------------------------------
  // Past orders

  /** A line item of a past order as the storefront returns it. */
  datatype OrderLineItemNode = OrderLineItemNode(title: string, quantity: Int32, variant: Option<OrderVariant>)

  datatype OrderVariant = OrderVariant(id: Id, price: Money, image: Option<Image>)

  /** A past order as the storefront returns it; optional fields are optional. */
  datatype OrderNode = OrderNode(
    id: Id,
    name: Option<string>,
    processedAt: int,
    totalPrice: Money,
    subtotalPrice: Option<Money>,
    totalShippingPrice: Money,
    fulfillmentStatus: Option<string>,
    lineItems: seq<OrderLineItemNode>)

  /** What the client delivered for the past-orders query: a failure, or a response whose
      customer may be absent (an unknown or expired token). */
  datatype OrdersOutcome = OrdersFailure | OrdersResponse(customerOrders: Option<seq<OrderNode>>)

  /** `fetchPastOrders`: the customer's orders, or nothing on a failure or a missing customer. */
  function FetchPastOrders(outcome: OrdersOutcome): (r: Option<seq<OrderNode>>)
    ensures r.Some? <==> outcome.OrdersResponse? && outcome.customerOrders.Some?
    ensures r.Some? ==> r == outcome.customerOrders
  {
    if outcome.OrdersResponse? then outcome.customerOrders else None
  }
}
