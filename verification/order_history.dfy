/** `OrderHistoryView`: `OrderViewModel.fetchOrders` turning past orders into display
    records with defaults for missing fields, newest first, and the amount the detail view
    shows for a money string.
 */
module OrderHistory {
  import opened Wrappers
  import opened Storefront
  import opened Defaults
  import opened Text
  import CartManager

  /** A displayed line item. */
  datatype LineItem = LineItem(id: string, title: string, quantity: int, price: string, imageUrl: Option<Url>)

  /** A displayed order. The view's random `UUID` identity is not modelled. */
  datatype Order = Order(
    date: int,
    orderId: string,
    orderName: string,
    totalAmount: string,
    subtotalAmount: string,
    totalShippingAmount: string,
    fulfillmentStatus: string,
    lineItems: seq<LineItem>)

  const UNKNOWN_ID: string := "Unknown ID"
  const UNKNOWN_ORDER_NAME: string := "Unknown Order Number"
  const UNKNOWN_STATUS: string := "Unknown Status"
  const DEFAULT_AMOUNT: string := "0"
  const DEFAULT_CURRENCY: string := "USD"

  /** A money string: "$", the amount, a space, the currency code. */
  function PriceString(amount: string, currencyCode: string): (r: string)
    ensures |r| == |amount| + |currencyCode| + 2
    ensures r[0] == '$' && r[1..|amount| + 1] == amount && r[|amount| + 1] == ' ' && r[|amount| + 2..] == currencyCode
  {
    "$" + amount + " " + currencyCode
  }

  /** A money string for an optional price: "$0 USD" when it is missing. */
  function OptionalPriceString(m: Option<Money>): string
  {
    if m.Some? then PriceString(m.value.amount, m.value.currencyCode)
    else PriceString(DEFAULT_AMOUNT, DEFAULT_CURRENCY)
  }

  /** One line-item edge to a displayed line item. */
  function MapLineItem(node: CartManager.OrderLineItemNode): (r: LineItem)
    ensures r.title == node.title && r.quantity == node.quantity
    ensures node.variant.None? ==> r == LineItem(UNKNOWN_ID, node.title, node.quantity, PriceString(DEFAULT_AMOUNT, DEFAULT_CURRENCY), None)
    ensures node.variant.Some? ==>
              && r.id == node.variant.value.id
              && r.price == PriceString(node.variant.value.price.amount, node.variant.value.price.currencyCode)
              && (r.imageUrl.Some? <==> node.variant.value.image.Some?)
              && (r.imageUrl.Some? ==> r.imageUrl.value == node.variant.value.image.value.url)
  {
    match node.variant
    case None => LineItem(UNKNOWN_ID, node.title, node.quantity, OptionalPriceString(None), None)
    case Some(v) =>
      LineItem(v.id, node.title, node.quantity, OptionalPriceString(Some(v.price)),
               if v.image.Some? then Some(v.image.value.url) else None)
  }

  /** One fetched order to a displayed order, line items mapped one for one. */
  function MapOrder(node: CartManager.OrderNode): (r: Order)
    ensures r.date == node.processedAt && r.orderId == node.id
    ensures r.orderName == node.name.GetOr(UNKNOWN_ORDER_NAME)
    ensures r.fulfillmentStatus == node.fulfillmentStatus.GetOr(UNKNOWN_STATUS)
    ensures r.totalAmount == PriceString(node.totalPrice.amount, node.totalPrice.currencyCode)
    ensures node.subtotalPrice.None? ==> r.subtotalAmount == PriceString(DEFAULT_AMOUNT, DEFAULT_CURRENCY)
    ensures node.subtotalPrice.Some? ==>
              r.subtotalAmount == PriceString(node.subtotalPrice.value.amount, node.subtotalPrice.value.currencyCode)
    ensures r.totalShippingAmount == PriceString(node.totalShippingPrice.amount, node.totalShippingPrice.currencyCode)
    ensures |r.lineItems| == |node.lineItems|
    ensures forall i :: 0 <= i < |node.lineItems| ==> r.lineItems[i] == MapLineItem(node.lineItems[i])
  {
    Order(
      node.processedAt,
      node.id,
      node.name.GetOr(UNKNOWN_ORDER_NAME),
      PriceString(node.totalPrice.amount, node.totalPrice.currencyCode),
      OptionalPriceString(node.subtotalPrice),
      PriceString(node.totalShippingPrice.amount, node.totalShippingPrice.currencyCode),
      node.fulfillmentStatus.GetOr(UNKNOWN_STATUS),
      seq(|node.lineItems|, i requires 0 <= i < |node.lineItems| => MapLineItem(node.lineItems[i])))
  }

  /** Newest first: no order is followed by a later one. */
  predicate SortedByDateDescending(s: seq<Order>)
  {
    forall i, j :: 0 <= i < j < |s| ==> s[i].date >= s[j].date
  }

  /** Place `x` before the first order that is strictly older than it. */
  function Insert(x: Order, s: seq<Order>): (r: seq<Order>)
    decreases |s|
  {
    if |s| == 0 || x.date >= s[0].date then [x] + s
    else [s[0]] + Insert(x, s[1..])
  }

  /** `sort { $0.date > $1.date }`, as an insertion sort that keeps same-date orders in
      their fetched order. */
  function SortByDateDescending(s: seq<Order>): (r: seq<Order>)
    decreases |s|
  {
    if |s| == 0 then [] else Insert(s[0], SortByDateDescending(s[1..]))
  }

  /** A sorted list's tail is sorted, and its head is no older than anything after it. */
  lemma SortedTail(s: seq<Order>)
    requires |s| > 0 && SortedByDateDescending(s)
    ensures SortedByDateDescending(s[1..])
    ensures forall y :: y in s[1..] ==> s[0].date >= y.date
  {
    forall i, j | 0 <= i < j < |s[1..]| ensures s[1..][i].date >= s[1..][j].date {
      assert s[1..][i] == s[i + 1] && s[1..][j] == s[j + 1];
    }
    forall y | y in s[1..] ensures s[0].date >= y.date {
      var m :| 0 <= m < |s[1..]| && s[1..][m] == y;
      assert s[m + 1] == y;
    }
  }

  /** An order no older than every order of a sorted list can go in front of it. */
  lemma ConsSorted(h: Order, t: seq<Order>)
    requires SortedByDateDescending(t)
    requires forall y :: y in multiset(t) ==> h.date >= y.date
    ensures SortedByDateDescending([h] + t)
  {
    var r := [h] + t;
    forall i, j | 0 <= i < j < |r| ensures r[i].date >= r[j].date {
      assert r[j] == t[j - 1];
      if i == 0 {
        assert t[j - 1] in multiset(t);
      } else {
        assert r[i] == t[i - 1];
      }
    }
  }

  /** Inserting adds exactly the one order. */
  lemma {:induction false} InsertPermutes(x: Order, s: seq<Order>)
    ensures multiset(Insert(x, s)) == multiset(s) + multiset{x}
    decreases |s|
  {
    if |s| > 0 && x.date < s[0].date {
      InsertPermutes(x, s[1..]);
      assert Insert(x, s) == [s[0]] + Insert(x, s[1..]);
      assert s == [s[0]] + s[1..];
    }
  }

  lemma {:induction false} InsertFacts(x: Order, s: seq<Order>)
    requires SortedByDateDescending(s)
    ensures multiset(Insert(x, s)) == multiset(s) + multiset{x}
    ensures SortedByDateDescending(Insert(x, s))
    decreases |s|
  {
    InsertPermutes(x, s);
    if |s| == 0 || x.date >= s[0].date {
      assert Insert(x, s) == [x] + s;
      InsertInFront(x, s);
    } else {
      var tail := Insert(x, s[1..]);
      SortedTail(s);
      InsertFacts(x, s[1..]);
      HeadBeforeInserted(s, x, tail);
      ConsSorted(s[0], tail);
      assert Insert(x, s) == [s[0]] + tail;
    }
  }

  /** An order no older than a sorted list's head goes in front. */
  lemma InsertInFront(x: Order, s: seq<Order>)
    requires SortedByDateDescending(s)
    requires |s| == 0 || x.date >= s[0].date
    ensures SortedByDateDescending([x] + s)
  {
    if |s| > 0 {
      SortedTail(s);
      assert s == [s[0]] + s[1..];
    }
    forall y: Order | y in multiset(s) ensures x.date >= y.date {
      if y != s[0] { assert y in s[1..]; }
    }
    ConsSorted(x, s);
  }

  /** The head of a sorted list is no older than anything in its tail with a younger order
      inserted. */
  lemma HeadBeforeInserted(s: seq<Order>, x: Order, tail: seq<Order>)
    requires |s| > 0 && x.date < s[0].date
    requires forall y :: y in s[1..] ==> s[0].date >= y.date
    requires multiset(tail) == multiset(s[1..]) + multiset{x}
    ensures forall y :: y in multiset(tail) ==> s[0].date >= y.date
  {
    forall y: Order | y in multiset(tail) ensures s[0].date >= y.date {
      if y != x { assert y in multiset(s[1..]); }
    }
  }

  /** The sort returns the same orders, newest first. */
  lemma {:induction false} SortIsSortedPermutation(s: seq<Order>)
    ensures multiset(SortByDateDescending(s)) == multiset(s)
    ensures SortedByDateDescending(SortByDateDescending(s))
    ensures |SortByDateDescending(s)| == |s|
    decreases |s|
  {
    if |s| > 0 {
      SortIsSortedPermutation(s[1..]);
      InsertFacts(s[0], SortByDateDescending(s[1..]));
      assert s == [s[0]] + s[1..];
    }
    assert |multiset(SortByDateDescending(s))| == |SortByDateDescending(s)|;
  }

  /** An already sorted list is left as it is. */
  lemma {:induction false} SortKeepsSorted(s: seq<Order>)
    requires SortedByDateDescending(s)
    ensures SortByDateDescending(s) == s
    decreases |s|
  {
    if |s| > 0 {
      assert SortedByDateDescending(s[1..]) by {
        forall i, j | 0 <= i < j < |s[1..]| ensures s[1..][i].date >= s[1..][j].date {
          assert s[1..][i] == s[i + 1] && s[1..][j] == s[j + 1];
        }
      }
      SortKeepsSorted(s[1..]);
      if |s| > 1 {
        assert s[0].date >= s[1].date;
      }
      assert s == [s[0]] + s[1..];
    }
  }

  /** The view model's published state. */
  datatype OrderViewModel = OrderViewModel(orders: seq<Order>, isLoading: bool)

  const INITIAL_VIEW_MODEL: OrderViewModel := OrderViewModel([], true)

  /** The fetched orders, each mapped, then sorted. */
  function DisplayedOrders(nodes: seq<CartManager.OrderNode>): seq<Order>
  {
    SortByDateDescending(seq(|nodes|, i requires 0 <= i < |nodes| => MapOrder(nodes[i])))
  }

  /** `fetchOrders()`: without a saved access token, stop loading and fetch nothing;
      otherwise fetch with the token, stop loading when the callback runs, and replace the
      orders only when some were delivered. Returns the token the fetch was sent with. */
  function FetchOrders(vm: OrderViewModel, store: Store, outcome: CartManager.OrdersOutcome): (r: (OrderViewModel, Option<string>))
    ensures !r.0.isLoading
    ensures r.1 == StringFor(store, CUSTOMER_ACCESS_TOKEN_KEY)
    ensures r.1.None? ==> r.0.orders == vm.orders
    ensures r.1.Some? && CartManager.FetchPastOrders(outcome).None? ==> r.0.orders == vm.orders
    ensures r.1.Some? && CartManager.FetchPastOrders(outcome).Some? ==>
              r.0.orders == DisplayedOrders(CartManager.FetchPastOrders(outcome).value)
  {
    match StringFor(store, CUSTOMER_ACCESS_TOKEN_KEY)
    case None => (vm.(isLoading := false), None)
    case Some(token) =>
      var fetched := CartManager.FetchPastOrders(outcome);
      var orders := if fetched.Some? then DisplayedOrders(fetched.value) else vm.orders;
      (OrderViewModel(orders, false), Some(token))
  }

  /** A delivered list shows one order per fetched order, none dropped or invented, newest
      first. */
  lemma FetchedOrdersAreSortedMapping(vm: OrderViewModel, store: Store, nodes: seq<CartManager.OrderNode>)
    requires StringFor(store, CUSTOMER_ACCESS_TOKEN_KEY).Some?
    ensures var shown := FetchOrders(vm, store, CartManager.OrdersResponse(Some(nodes))).0.orders;
            && |shown| == |nodes|
            && SortedByDateDescending(shown)
            && multiset(shown) == multiset(seq(|nodes|, i requires 0 <= i < |nodes| => MapOrder(nodes[i])))
  {
    SortIsSortedPermutation(seq(|nodes|, i requires 0 <= i < |nodes| => MapOrder(nodes[i])));
  }

  /** Without a saved token a fresh view model stops loading and shows no orders, whatever
      the storefront would have answered, and no fetch is sent. */
  lemma NoTokenShowsNoOrders(store: Store, outcome: CartManager.OrdersOutcome)
    requires StringFor(store, CUSTOMER_ACCESS_TOKEN_KEY).None?
    ensures var (vm, sent) := FetchOrders(INITIAL_VIEW_MODEL, store, outcome);
            vm.orders == [] && !vm.isLoading && sent.None?
  {
  }

  /** The detail view's amount: the text before the first space, or "" for a blank string. */
  function DisplayedAmount(money: string): (r: string)
    ensures r == "" || IsWord(r)
  {
    FirstToken(money)
  }

  /** For an amount without spaces, the detail view shows the "$" and the amount and drops
      the currency code. */
  lemma DisplayedAmountOfPrice(amount: string, currencyCode: string)
    requires ' ' !in amount
    ensures DisplayedAmount(PriceString(amount, currencyCode)) == "$" + amount
  {
    assert PriceString(amount, currencyCode) == ("$" + amount) + (" " + currencyCode);
    assert ' ' !in "$" + amount by {
      forall i | 0 <= i < |"$" + amount| ensures ("$" + amount)[i] != ' ' {
        if i > 0 { assert ("$" + amount)[i] == amount[i - 1]; }
      }
    }
    TokensOfWordThen("$" + amount, " " + currencyCode);
  }
}
