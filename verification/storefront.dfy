/** The storefront entities the app reads, as plain immutable values.
    Only the fields the app's decision logic looks at are kept; identifiers,
    URLs and amounts are opaque strings.
 */
module Storefront {
  import opened Wrappers

  /** An opaque GraphQL identifier (`GraphQL.ID`). */
  type Id = string

  /** An opaque URL. */
  type Url = string

  const INT32_MIN: int := -0x8000_0000
  const INT32_MAX: int := 0x7fff_ffff

  /** Swift's `Int32`, the type of cart line quantities. */
  type Int32 = x: int | INT32_MIN <= x <= INT32_MAX

  /** `MoneyV2`: the decimal amount kept as its textual form, plus a currency code. */
  datatype Money = Money(amount: string, currencyCode: string)

  datatype Image = Image(id: Id, url: Url)

  datatype ProductVariant = ProductVariant(
    id: Id,
    title: string,
    price: Money,
    availableForSale: bool,
    image: Option<Image>)

  datatype Product = Product(
    id: Id,
    title: string,
    description: string,
    vendor: string,
    tags: seq<string>,
    productType: string,
    images: seq<Image>,
    variants: seq<ProductVariant>)

  /** A cart line's merchandise: a product variant (with the title of its product), or some
      other kind the app does not show. */
  datatype Merchandise = VariantMerchandise(variant: ProductVariant, productTitle: string) | OtherMerchandise

  datatype CartLine = CartLine(id: Id, quantity: Int32, merchandise: Merchandise)

  datatype Cart = Cart(id: Id, checkoutUrl: Url, totalQuantity: Int32, lines: seq<CartLine>)

  datatype Customer = Customer(id: Id, firstName: string, lastName: string, email: string)

  /** A GraphQL user error: the offending field path and a message. */
  datatype UserError = UserError(field: seq<string>, message: string)

  const OUT_OF_STOCK_SUFFIX: string := " (OUT OF STOCK)"

  /** A variant's label: its title, marked when the variant is not available for sale. */
  function StockLabel(title: string, availableForSale: bool): (r: string)
    ensures availableForSale ==> r == title
    ensures !availableForSale ==> r == title + OUT_OF_STOCK_SUFFIX
  {
    if availableForSale then title else title + OUT_OF_STOCK_SUFFIX
  }

  /** The checkout URL of an optional cart (`cart?.checkoutUrl`). */
  function CheckoutUrlOf(cart: Option<Cart>): (r: Option<Url>)
    ensures r.Some? <==> cart.Some?
    ensures cart.Some? ==> r.value == cart.value.checkoutUrl
  {
    match cart
    case Some(c) => Some(c.checkoutUrl)
    case None => None
  }
}
